/** What identity normalisation identifies, said without running it: which raw
    values of each kind are filed under one key. */
module NormalForms {
  import opened Common
  import opened Identities

  // ----- stripping -----

  /** `t` is `s` without the whitespace at its ends. */
  ghost predicate StripsTo(s: string, t: string) {
    exists i, j :: Cut(s, i, j, t)
  }

  ghost predicate Cut(s: string, i: int, j: int, t: string) {
    && 0 <= i <= j <= |s| && t == s[i..j]
    && (forall k :: 0 <= k < i || j <= k < |s| ==> IsSpace(s[k]))
    && (i < j ==> !IsSpace(s[i]) && !IsSpace(s[j - 1]))
  }

  /** The ASCII whitespace of `str.strip`; no printable character is among it. */
  lemma AsciiSpaces(c: char)
    requires c < 128 as char
    ensures IsSpace(c) <==> c in "\t\n\U{0B}\U{0C}\r\U{1C}\U{1D}\U{1E}\U{1F} "
    ensures IsSpace(c) ==> c <= ' '
  {
    assert "\t\n\U{0B}\U{0C}\r\U{1C}\U{1D}\U{1E}\U{1F} "
        == ['\t', '\n', '\U{0B}', '\U{0C}', '\r', '\U{1C}', '\U{1D}', '\U{1E}', '\U{1F}', ' '];
  }

  lemma {:induction false} StripLeftCut(s: string) returns (i: nat)
    ensures i <= |s| && StripLeft(s) == s[i..]
    ensures forall k :: 0 <= k < i ==> IsSpace(s[k])
  {
    hide IsSpace;
    if s != "" && IsSpace(s[0]) {
      var n := StripLeftCut(s[1..]);
      i := n + 1;
      assert s[1..][n..] == s[i..];
      forall k | 0 <= k < i
        ensures IsSpace(s[k])
      {
        assert k > 0 ==> s[k] == s[1..][k - 1];
      }
    } else {
      i := 0;
    }
  }

  lemma {:induction false} StripRightCut(s: string) returns (j: nat)
    ensures j <= |s| && StripRight(s) == s[..j]
    ensures forall k :: j <= k < |s| ==> IsSpace(s[k])
  {
    hide IsSpace;
    if s != "" && IsSpace(s[|s| - 1]) {
      var front := s[..|s| - 1];
      j := StripRightCut(front);
      assert front[..j] == s[..j];
      forall k | j <= k < |s|
        ensures IsSpace(s[k])
      {
        assert k < |front| ==> s[k] == front[k];
      }
    } else {
      j := |s|;
    }
  }

  lemma OneCut(s: string, i: int, j: int, t: string, i': int, j': int, t': string)
    requires Cut(s, i, j, t) && Cut(s, i', j', t')
    ensures t == t'
  {
    if i < j && i' < j' {
      assert i == i' && j == j';
    }
  }

  lemma StripCuts(s: string) returns (i: int, j: int)
    ensures Cut(s, i, j, Strip(s))
  {
    hide IsSpace, StripLeft, StripRight;
    var left := StripLeft(s);
    i := StripLeftCut(s);
    var n := StripRightCut(left);
    j := i + n;
    StripTrims(s);
    forall k | j <= k < |s|
      ensures IsSpace(s[k])
    {
      assert s[k] == left[k - i];
    }
  }

  lemma StripIsCut(s: string, t: string)
    ensures StripsTo(s, t) <==> t == Strip(s)
  {
    hide Cut, Strip;
    var i, j := StripCuts(s);
    if StripsTo(s, t) {
      var a, b :| Cut(s, a, b, t);
      OneCut(s, i, j, Strip(s), a, b, t);
    }
  }

  // ----- emails, chat handles, external ids -----

  /** One letter of the alphabet, in either case, or the same character. */
  predicate SameLetter(c: char, d: char) {
    || c == d
    || ('A' <= c <= 'Z' && c as int - 'A' as int == d as int - 'a' as int)
    || ('A' <= d <= 'Z' && d as int - 'A' as int == c as int - 'a' as int)
  }

  predicate CaseAlike(s: string, t: string) {
    |s| == |t| && forall i :: 0 <= i < |s| ==> SameLetter(s[i], t[i])
  }

  predicate NoCapitals(s: string) {
    forall i :: 0 <= i < |s| ==> !('A' <= s[i] <= 'Z')
  }

  lemma LettersAlike(c: char, d: char)
    ensures LowerChar(c) == LowerChar(d) <==> SameLetter(c, d)
    ensures SameLetter(c, LowerChar(c)) && !('A' <= LowerChar(c) <= 'Z')
  {
  }

  lemma LowerAlike(s: string, t: string)
    ensures Lower(s) == Lower(t) <==> CaseAlike(s, t)
    ensures CaseAlike(s, Lower(s)) && NoCapitals(Lower(s))
  {
    hide LowerChar, SameLetter;
    forall i | 0 <= i < |s|
      ensures SameLetter(s[i], Lower(s)[i]) && !('A' <= Lower(s)[i] <= 'Z')
      ensures |s| == |t| ==> (Lower(s)[i] == Lower(t)[i] <==> SameLetter(s[i], t[i]))
    {
      LettersAlike(s[i], s[i]);
      if |s| == |t| {
        LettersAlike(s[i], t[i]);
      }
    }
    assert |s| != |t| ==> |Lower(s)| != |Lower(t)|;
    if Lower(s) == Lower(t) {
      assert forall i :: 0 <= i < |s| ==> Lower(s)[i] == Lower(t)[i];
    }
    if CaseAlike(s, t) {
      assert forall i :: 0 <= i < |s| ==> SameLetter(s[i], t[i]);
      assert Lower(s) == Lower(t);
    }
  }

  /** Emails and chat handles are one exactly when they agree, whitespace at the
      ends aside, up to the case of letters; keys hold no capitals. */
  lemma CaseBlind(kind: Kind, a: string, b: string)
    requires kind == Email || kind == ChatHandle
    ensures Normalize(kind, a) == Normalize(kind, b) <==> CaseAlike(Strip(a), Strip(b))
    ensures CaseAlike(Strip(a), Normalize(kind, a)) && NoCapitals(Normalize(kind, a))
  {
    hide Strip, Lower, CaseAlike;
    assert Lower("") == "";
    LowerAlike(Strip(a), Strip(b));
  }

  /** External ids are one exactly when their stripped texts are equal. */
  lemma CaseKept(a: string, b: string)
    ensures Normalize(ExternalId, a) == Normalize(ExternalId, b) <==> StripsTo(a, Normalize(ExternalId, b))
    ensures StripsTo(a, Normalize(ExternalId, a))
  {
    StripIsCut(a, Normalize(ExternalId, a));
    StripIsCut(a, Normalize(ExternalId, b));
  }

  /** The repository's own keys agree with this for emails and chat handles, and
      leave the other kinds as typed between their ends. */
  lemma KeysAlike(kind: Kind, a: string, b: string)
    ensures kind == Email || kind == ChatHandle ==>
              && (IndexValue(kind, a) == IndexValue(kind, b) <==> CaseAlike(Strip(a), Strip(b)))
              && CaseAlike(Strip(a), IndexValue(kind, a)) && NoCapitals(IndexValue(kind, a))
    ensures kind == ExternalId || kind == Phone ==> StripsTo(a, IndexValue(kind, a))
  {
    hide Strip, Lower, CaseAlike;
    LowerAlike(Strip(a), Strip(b));
    StripIsCut(a, IndexValue(kind, a));
  }

  // ----- phone numbers -----

  /** The places of a phone number that count: its digits, and the plus signs
      after the first of them. */
  ghost predicate Counts(v: string, i: int) {
    && 0 <= i < |v|
    && (v[i] in "0123456789" || (v[i] == '+' && exists j :: 0 <= j < i && v[j] in "0123456789"))
  }

  ghost predicate Ascending(p: seq<int>) {
    forall k, l :: 0 <= k < l < |p| ==> p[k] < p[l]
  }

  /** `p` lists the places that count, from left to right. */
  ghost predicate Places(v: string, p: seq<int>) {
    Ascending(p) && forall i :: i in p <==> Counts(v, i)
  }

  /** The same characters stand, in the same order, at the places that count. */
  ghost predicate DialAlike(v: string, w: string) {
    exists p, q :: Places(v, p) && Places(w, q) && Matching(v, p, w, q)
  }

  ghost predicate Matching(v: string, p: seq<int>, w: string, q: seq<int>) {
    && |p| == |q|
    && (forall k :: 0 <= k < |p| ==> 0 <= p[k] < |v| && 0 <= q[k] < |w| && v[p[k]] == w[q[k]])
  }

  predicate PlusFirst(v: string) {
    v != "" && v[0] == '+'
  }

  lemma DigitIsDigit(c: char)
    ensures IsDigit(c) <==> c in "0123456789"
  {
    assert "0123456789" == ['0', '1', '2', '3', '4', '5', '6', '7', '8', '9'];
  }

  function Body(v: string): string {
    StripPlus(Dialled(v))
  }

  lemma {:induction false} DialledAppend(v: string, c: char)
    ensures Dialled(v + [c]) == Dialled(v) + (if IsDigit(c) || c == '+' then [c] else "")
  {
    hide IsDigit;
    var last := if IsDigit(c) || c == '+' then [c] else "";
    if v == "" {
      assert [c][1..] == "";
    } else {
      assert (v + [c])[1..] == v[1..] + [c];
      DialledAppend(v[1..], c);
      var first := if IsDigit(v[0]) || v[0] == '+' then [v[0]] else "";
      assert first + (Dialled(v[1..]) + last) == (first + Dialled(v[1..])) + last;
    }
  }

  lemma {:induction false} StripPlusAppend(x: string, c: char)
    ensures StripPlus(x + [c]) == if StripPlus(x) == "" && c == '+' then "" else StripPlus(x) + [c]
  {
    if x == "" {
      assert [c][1..] == "";
    } else {
      assert (x + [c])[1..] == x[1..] + [c];
      StripPlusAppend(x[1..], c);
    }
  }

  lemma BodyAppend(v: string, c: char)
    ensures Body(v + [c]) == if c in "0123456789" || (c == '+' && Body(v) != "") then Body(v) + [c] else Body(v)
  {
    hide Dialled, StripPlus, IsDigit;
    DialledAppend(v, c);
    StripPlusAppend(Dialled(v), c);
    DigitIsDigit(c);
    assert Dialled(v) + "" == Dialled(v);
  }

  /** Reading the body off the number, one place at a time. */
  lemma {:induction false} BodyPlaces(v: string) returns (p: seq<int>)
    ensures Places(v, p) && |p| == |Body(v)|
    ensures forall k :: 0 <= k < |p| ==> 0 <= p[k] < |v| && Body(v)[k] == v[p[k]]
    ensures Body(v) == "" <==> forall i :: 0 <= i < |v| ==> v[i] !in "0123456789"
  {
    hide Body, Places, Counts;
    if v == "" {
      p := [];
      NoPlaces();
    } else {
      var n := |v| - 1;
      var front, c := v[..n], v[n];
      assert v == front + [c];
      p := BodyPlaces(front);
      BodyAppend(front, c);
      PlacesAppend(front, c, p);
      if Counts(v, n) {
        p := p + [n];
      }
    }
  }

  lemma NoPlaces()
    ensures Body("") == "" && Places("", [])
  {
  }

  lemma PlacesAppend(front: string, c: char, p: seq<int>)
    requires Places(front, p)
    ensures Places(front + [c], if Counts(front + [c], |front|) then p + [|front|] else p)
    ensures Counts(front + [c], |front|) <==>
              c in "0123456789" || (c == '+' && exists j :: 0 <= j < |front| && front[j] in "0123456789")
  {
    hide Counts;
    CountsAppend(front, c);
    CountsInside(front);
    CountsInside(front + [c]);
    var v, n := front + [c], |front|;
    var q := if Counts(v, n) then p + [n] else p;
    forall k, l | 0 <= k < l < |q|
      ensures q[k] < q[l]
    {
      assert q[k] in p;
      assert l < |p| ==> q[l] == p[l];
    }
  }

  lemma CountsInside(v: string)
    ensures forall i :: Counts(v, i) ==> 0 <= i < |v|
  {
  }

  lemma CountsAppend(front: string, c: char)
    ensures forall i :: i < |front| ==> (Counts(front + [c], i) <==> Counts(front, i))
    ensures Counts(front + [c], |front|) <==>
              c in "0123456789" || (c == '+' && exists j :: 0 <= j < |front| && front[j] in "0123456789")
  {
    var v := front + [c];
    assert forall j :: 0 <= j < |front| ==> v[j] == front[j];
  }

  lemma LastIsGreatest(p: seq<int>, x: int)
    requires Ascending(p) && x in p
    ensures x <= p[|p| - 1]
    ensures x in p[..|p| - 1] <==> x < p[|p| - 1]
  {
    var k :| 0 <= k < |p| && p[k] == x;
    if k < |p| - 1 {
      assert p[..|p| - 1][k] == x;
    }
  }

  lemma FrontListing(p: seq<int>)
    requires Ascending(p) && p != []
    ensures Ascending(p[..|p| - 1])
    ensures forall x :: x in p[..|p| - 1] <==> x in p && x < p[|p| - 1]
    ensures forall x :: x in p ==> x <= p[|p| - 1]
  {
    forall x | x in p
      ensures x <= p[|p| - 1] && (x in p[..|p| - 1] <==> x < p[|p| - 1])
    {
      LastIsGreatest(p, x);
    }
  }

  lemma SameEmptiness(p: seq<int>, q: seq<int>)
    requires forall i :: i in p <==> i in q
    ensures p == [] <==> q == []
  {
    if p != [] {
      var x := p[0];
      assert x in p;
    }
    if q != [] {
      var x := q[0];
      assert x in q;
    }
  }

  /** A set of places has one left-to-right listing. */
  lemma {:induction false} OneListing(p: seq<int>, q: seq<int>)
    requires Ascending(p) && Ascending(q) && forall i :: i in p <==> i in q
    ensures p == q
    decreases |p|
  {
    hide Ascending;
    SameEmptiness(p, q);
    if p != [] {
      FrontListing(p);
      FrontListing(q);
      var m, n := p[|p| - 1], q[|q| - 1];
      assert m in q && n in p;
      assert m == n;
      var p', q' := p[..|p| - 1], q[..|q| - 1];
      forall i
        ensures i in p' <==> i in q'
      {
        assert i in p <==> i in q;
      }
      OneListing(p', q');
      assert p == p' + [m] && q == q' + [n];
    }
  }

  /** Phone numbers are one exactly when they agree on a leading plus and on
      their digits, in order, with any plus sign after the first digit kept. */
  lemma PhonesAlike(a: string, b: string)
    ensures Normalize(Phone, a) == Normalize(Phone, b) <==>
              PlusFirst(Strip(a)) == PlusFirst(Strip(b)) && DialAlike(Strip(a), Strip(b))
  {
    hide Strip, Dialled, StripPlus, Places, Matching;
    var v, w := Strip(a), Strip(b);
    NoPlaces();
    BodiesAlike(v, w);
    PhoneShape(v);
    PhoneShape(w);
    assert Normalize(Phone, a) == (if PlusFirst(v) then "+" else "") + Body(v);
    assert Normalize(Phone, b) == (if PlusFirst(w) then "+" else "") + Body(w);
    if Normalize(Phone, a) == Normalize(Phone, b) {
      assert PlusFirst(v) == PlusFirst(Normalize(Phone, a));
      assert PlusFirst(w) == PlusFirst(Normalize(Phone, b));
      var k := if PlusFirst(v) then 1 else 0;
      assert Body(v) == Normalize(Phone, a)[k..];
      assert Body(w) == Normalize(Phone, b)[k..];
    }
  }

  lemma PhoneShape(v: string)
    ensures !PlusFirst(Body(v))
  {
    DialledIsDigital(v);
    StripPlusStops(Dialled(v));
  }

  lemma BodiesAlike(v: string, w: string)
    ensures Body(v) == Body(w) <==> DialAlike(v, w)
  {
    hide Body;
    var p := BodyPlaces(v);
    var q := BodyPlaces(w);
    if Body(v) == Body(w) {
      assert Matching(v, p, w, q);
    }
    if DialAlike(v, w) {
      var p', q' :| Places(v, p') && Places(w, q') && Matching(v, p', w, q');
      OneListing(p, p');
      OneListing(q, q');
      assert Body(v) == Body(w);
    }
  }

  /** Two events name one email or chat handle exactly when the fields agree up
      to outer whitespace and letter case. */
  lemma HintsAlike(p: map<string, Value>, q: map<string, Value>, m: nat, n: nat, g: Hint, h: Hint)
    requires From(p, m, g) && From(q, n, h) && PAYLOAD_KEYS[m].1 == PAYLOAD_KEYS[n].1
    requires PAYLOAD_KEYS[m].1 == Email || PAYLOAD_KEYS[m].1 == ChatHandle
    ensures g == h <==> CaseAlike(Strip(p[PAYLOAD_KEYS[m].0].text), Strip(q[PAYLOAD_KEYS[n].0].text))
  {
    hide Strip, Normalize, CaseAlike;
    CaseBlind(PAYLOAD_KEYS[m].1, p[PAYLOAD_KEYS[m].0].text, q[PAYLOAD_KEYS[n].0].text);
  }

  /** The field `key` holds a usable text with this normal form. */
  predicate Gives(payload: map<string, Value>, key: string, h: Hint) {
    key in payload && payload[key].Text? && h.value != "" && h.value == Normalize(h.kind, payload[key].text)
  }

  /** Which payload fields a hint of each kind can come from. */
  lemma HintFields(payload: map<string, Value>, h: Hint)
    ensures (exists n :: From(payload, n, h)) <==>
              match h.kind
              case ExternalId => Gives(payload, "external_id", h) || Gives(payload, "customer_external_id", h)
              case Email =>
                Gives(payload, "from_email", h) || Gives(payload, "email", h) || Gives(payload, "sender_email", h)
              case Phone =>
                Gives(payload, "from_phone", h) || Gives(payload, "phone", h) || Gives(payload, "sender_phone", h)
              case ChatHandle =>
                Gives(payload, "chat_handle", h) || Gives(payload, "user_handle", h) || Gives(payload, "username", h)
  {
    hide From, Gives;
    FieldAt(payload, h, 0, "external_id", ExternalId);
    FieldAt(payload, h, 1, "customer_external_id", ExternalId);
    FieldAt(payload, h, 2, "from_email", Email);
    FieldAt(payload, h, 3, "email", Email);
    FieldAt(payload, h, 4, "sender_email", Email);
    FieldAt(payload, h, 5, "from_phone", Phone);
    FieldAt(payload, h, 6, "phone", Phone);
    FieldAt(payload, h, 7, "sender_phone", Phone);
    FieldAt(payload, h, 8, "chat_handle", ChatHandle);
    FieldAt(payload, h, 9, "user_handle", ChatHandle);
    FieldAt(payload, h, 10, "username", ChatHandle);
    assert forall n :: From(payload, n, h) ==> 0 <= n < 11 by {
      FromInRange(payload, h);
    }
  }

  lemma FromInRange(payload: map<string, Value>, h: Hint)
    ensures forall n :: From(payload, n, h) ==> 0 <= n < 11
  {
    hide Normalize;
  }

  lemma FieldAt(payload: map<string, Value>, h: Hint, n: nat, key: string, kind: Kind)
    requires n < |PAYLOAD_KEYS| && PAYLOAD_KEYS[n] == (key, kind)
    ensures From(payload, n, h) <==> Gives(payload, key, h) && h.kind == kind
  {
    hide Normalize;
  }
}
