/** Identity values: normalisation, and extraction of lookup hints from an
    event payload. Letter case and digits are ASCII; whitespace is Unicode. */
module Identities {
  import opened Common

  datatype Kind = ExternalId | Email | Phone | ChatHandle

  datatype Hint = Hint(kind: Kind, value: string)

  datatype Value = Text(text: string) | Other

  // ----- text -----

  predicate IsSpace(c: char) {
    var n := c as int;
    || 9 <= n <= 13 || 28 <= n <= 32 || n == 0x85 || n == 0xA0 || n == 0x1680 || 0x2000 <= n <= 0x200A
    || n == 0x2028 || n == 0x2029 || n == 0x202F || n == 0x205F || n == 0x3000
  }

  predicate IsDigit(c: char) {
    '0' <= c <= '9'
  }

  function Lower(s: string): (r: string)
    ensures |r| == |s|
    ensures forall i :: 0 <= i < |s| ==> r[i] == LowerChar(s[i])
  {
    if s == "" then "" else [LowerChar(s[0])] + Lower(s[1..])
  }

  function StripLeft(s: string): string {
    if s != "" && IsSpace(s[0]) then StripLeft(s[1..]) else s
  }

  function StripRight(s: string): string {
    if s != "" && IsSpace(s[|s| - 1]) then StripRight(s[..|s| - 1]) else s
  }

  function Strip(s: string): string {
    StripRight(StripLeft(s))
  }

  predicate Trimmed(s: string) {
    s != "" ==> !IsSpace(s[0]) && !IsSpace(s[|s| - 1])
  }

  lemma {:induction false} StripLeftHead(s: string)
    ensures StripLeft(s) != "" ==> !IsSpace(StripLeft(s)[0])
  {
    if s != "" && IsSpace(s[0]) {
      StripLeftHead(s[1..]);
    }
  }

  lemma {:induction false} StripRightTrims(s: string)
    requires s != "" ==> !IsSpace(s[0])
    ensures Trimmed(StripRight(s))
  {
    if s != "" && IsSpace(s[|s| - 1]) {
      StripRightTrims(s[..|s| - 1]);
    }
  }

  lemma StripTrims(s: string)
    ensures Trimmed(Strip(s))
    ensures Trimmed(s) ==> Strip(s) == s
  {
    StripLeftHead(s);
    StripRightTrims(StripLeft(s));
  }

  lemma LowerStable(s: string)
    ensures Lower(Lower(s)) == Lower(s)
    ensures Trimmed(s) ==> Trimmed(Lower(s))
  {
    assert Lower(Lower(s)) == Lower(s);
  }

  // ----- normalisation -----

  /** Everything that is neither a digit nor a plus sign is dropped. */
  function Dialled(s: string): string {
    if s == "" then ""
    else (if IsDigit(s[0]) || s[0] == '+' then [s[0]] else "") + Dialled(s[1..])
  }

  function StripPlus(s: string): string {
    if s != "" && s[0] == '+' then StripPlus(s[1..]) else s
  }

  function Normalize(kind: Kind, raw: string): string {
    var v := Strip(raw);
    if v == "" then v
    else
      match kind
      case Phone => (if v[0] == '+' then "+" else "") + StripPlus(Dialled(v))
      case Email => Lower(v)
      case ChatHandle => Lower(v)
      case ExternalId => v
  }

  /** The repository's own idea of an identity's key. */
  function IndexValue(kind: Kind, value: string): string {
    var v := Strip(value);
    if kind == Email || kind == ChatHandle then Lower(v) else v
  }

  predicate Digital(s: string) {
    forall i :: 0 <= i < |s| ==> IsDigit(s[i]) || s[i] == '+'
  }

  lemma {:induction false} DialledIsDigital(s: string)
    ensures Digital(Dialled(s))
    ensures Digital(s) ==> Dialled(s) == s
  {
    if s != "" {
      DialledIsDigital(s[1..]);
    }
  }

  lemma {:induction false} StripPlusStops(s: string)
    requires Digital(s)
    ensures Digital(StripPlus(s))
    ensures StripPlus(s) != "" ==> StripPlus(s)[0] != '+'
  {
    if s != "" && s[0] == '+' {
      StripPlusStops(s[1..]);
    }
  }

  /** A phone number in stored form: an optional plus, then digits and pluses
      beginning with a digit. */
  lemma PhoneStable(plus: string, digits: string)
    requires plus == "" || plus == "+"
    requires Digital(digits) && (digits != "" ==> digits[0] != '+')
    ensures Normalize(Phone, plus + digits) == plus + digits
    ensures IndexValue(Phone, plus + digits) == plus + digits
  {
    var v := plus + digits;
    assert Digital(v);
    assert Trimmed(v);
    StripTrims(v);
    DialledIsDigital(v);
    if plus == "+" {
      assert v[1..] == digits;
      assert StripPlus(v) == StripPlus(digits) == digits;
    } else {
      assert v == digits && StripPlus(v) == v;
    }
  }

  /** Normalising twice is normalising once, and what the linker looks up is
      exactly what the repository files. */
  lemma NormalizeStable(kind: Kind, raw: string)
    ensures Normalize(kind, Normalize(kind, raw)) == Normalize(kind, raw)
    ensures IndexValue(kind, Normalize(kind, raw)) == Normalize(kind, raw)
  {
    var v := Strip(raw);
    StripTrims(raw);
    StripTrims(v);
    if v == "" {
      assert Lower("") == "";
    } else if kind == Phone {
      DialledIsDigital(v);
      StripPlusStops(Dialled(v));
      PhoneStable(if v[0] == '+' then "+" else "", StripPlus(Dialled(v)));
    } else if kind != ExternalId {
      LowerStable(v);
      StripTrims(Lower(v));
    }
  }

  // ----- hints -----

  const PAYLOAD_KEYS: seq<(string, Kind)> := [
    ("external_id", ExternalId),
    ("customer_external_id", ExternalId),
    ("from_email", Email),
    ("email", Email),
    ("sender_email", Email),
    ("from_phone", Phone),
    ("phone", Phone),
    ("sender_phone", Phone),
    ("chat_handle", ChatHandle),
    ("user_handle", ChatHandle),
    ("username", ChatHandle)
  ]

  const PRIORITY: seq<Kind> := [ExternalId, Email, Phone, ChatHandle]

  /** Position of a kind in the lookup order. */
  function Rank(kind: Kind): (r: nat)
    ensures r < 4
  {
    match kind case ExternalId => 0 case Email => 1 case Phone => 2 case ChatHandle => 3
  }

  lemma RankIsPosition(kind: Kind)
    ensures PRIORITY[Rank(kind)] == kind
    ensures forall k :: 0 <= k < |PRIORITY| && PRIORITY[k] == kind ==> k == Rank(kind)
  {
  }

  predicate Sorted(hints: seq<Hint>) {
    forall i, j :: 0 <= i < j < |hints| ==> Rank(hints[i].kind) <= Rank(hints[j].kind)
  }

  function OfRank(hints: seq<Hint>, r: nat): seq<Hint> {
    if hints == [] then []
    else (if Rank(hints[0].kind) == r then [hints[0]] else []) + OfRank(hints[1..], r)
  }

  /** The stable sort by lookup priority. */
  function ByPriority(hints: seq<Hint>): seq<Hint> {
    OfRank(hints, 0) + OfRank(hints, 1) + OfRank(hints, 2) + OfRank(hints, 3)
  }

  lemma {:induction false} OfRankMembers(hints: seq<Hint>, r: nat)
    ensures forall h :: h in OfRank(hints, r) <==> h in hints && Rank(h.kind) == r
    ensures NoDup(hints) ==> NoDup(OfRank(hints, r))
  {
    if hints != [] {
      var rest := hints[1..];
      assert hints == [hints[0]] + rest;
      OfRankMembers(rest, r);
      if NoDup(hints) {
        assert hints[0] !in rest;
      }
    }
  }

  lemma {:induction false} OfRankAppend(a: seq<Hint>, b: seq<Hint>, r: nat)
    ensures OfRank(a + b, r) == OfRank(a, r) + OfRank(b, r)
  {
    if a == [] {
      assert a + b == b;
    } else {
      assert (a + b)[1..] == a[1..] + b;
      OfRankAppend(a[1..], b, r);
      var first := if Rank(a[0].kind) == r then [a[0]] else [];
      assert first + (OfRank(a[1..], r) + OfRank(b, r)) == (first + OfRank(a[1..], r)) + OfRank(b, r);
    }
  }

  lemma {:induction false} OfRankTwice(hints: seq<Hint>, r: nat, q: nat)
    ensures OfRank(OfRank(hints, q), r) == if q == r then OfRank(hints, r) else []
  {
    if hints != [] {
      OfRankTwice(hints[1..], r, q);
      OfRankAppend(if Rank(hints[0].kind) == q then [hints[0]] else [], OfRank(hints[1..], q), r);
      assert OfRank([hints[0]], r) == if Rank(hints[0].kind) == r then [hints[0]] else [];
    }
  }

  lemma AllOfRank(hints: seq<Hint>, r: nat)
    ensures forall i :: 0 <= i < |OfRank(hints, r)| ==> Rank(OfRank(hints, r)[i].kind) == r
  {
    OfRankMembers(hints, r);
    forall i | 0 <= i < |OfRank(hints, r)|
      ensures Rank(OfRank(hints, r)[i].kind) == r
    {
      assert OfRank(hints, r)[i] in OfRank(hints, r);
    }
  }

  /** `ByPriority` sorts, keeps the hints, and keeps the order within a kind. */
  lemma ByPrioritySorts(hints: seq<Hint>)
    ensures Sorted(ByPriority(hints))
    ensures forall h :: h in ByPriority(hints) <==> h in hints
  {
    hide OfRank;
    AllOfRank(hints, 0);
    AllOfRank(hints, 1);
    AllOfRank(hints, 2);
    AllOfRank(hints, 3);
    OfRankMembers(hints, 0);
    OfRankMembers(hints, 1);
    OfRankMembers(hints, 2);
    OfRankMembers(hints, 3);
  }

  lemma NoDupConcat<T>(a: seq<T>, b: seq<T>)
    requires NoDup(a) && NoDup(b) && forall x :: x in a ==> x !in b
    ensures NoDup(a + b)
  {
    forall i, j | 0 <= i < j < |a + b|
      ensures (a + b)[i] != (a + b)[j]
    {
      if i < |a| <= j {
        assert a[i] in a && b[j - |a|] in b;
      }
    }
  }

  lemma ByPriorityDistinct(hints: seq<Hint>)
    requires NoDup(hints)
    ensures NoDup(ByPriority(hints))
  {
    hide OfRank, NoDup;
    OfRankMembers(hints, 0);
    OfRankMembers(hints, 1);
    OfRankMembers(hints, 2);
    OfRankMembers(hints, 3);
    var a, b, c, d := OfRank(hints, 0), OfRank(hints, 1), OfRank(hints, 2), OfRank(hints, 3);
    NoDupConcat(a, b);
    NoDupConcat(a + b, c);
    NoDupConcat(a + b + c, d);
  }

  lemma ByPriorityStable(hints: seq<Hint>, r: nat)
    requires r < 4
    ensures OfRank(ByPriority(hints), r) == OfRank(hints, r)
  {
    var a, b, c, d := OfRank(hints, 0), OfRank(hints, 1), OfRank(hints, 2), OfRank(hints, 3);
    OfRankAppend(a + b + c, d, r);
    OfRankAppend(a + b, c, r);
    OfRankAppend(a, b, r);
    OfRankTwice(hints, r, 0);
    OfRankTwice(hints, r, 1);
    OfRankTwice(hints, r, 2);
    OfRankTwice(hints, r, 3);
  }

  /** `h` comes from the `n`-th recognised payload key. */
  predicate From(payload: map<string, Value>, n: int, h: Hint) {
    && 0 <= n < |PAYLOAD_KEYS|
    && PAYLOAD_KEYS[n].0 in payload
    && payload[PAYLOAD_KEYS[n].0].Text?
    && h == Hint(PAYLOAD_KEYS[n].1, Normalize(PAYLOAD_KEYS[n].1, payload[PAYLOAD_KEYS[n].0].text))
    && h.value != ""
  }

  /** Every usable identity in the payload, once, in normal form, by priority. */
  method ExtractIdentityHints(payload: map<string, Value>) returns (hints: seq<Hint>)
    ensures forall h :: h in hints <==> exists n :: From(payload, n, h)
    ensures NoDup(hints) && Sorted(hints)
    ensures forall h :: h in hints ==> h.value != "" && IndexValue(h.kind, h.value) == h.value
  {
    var seen: set<Hint> := {};
    hints := [];
    for n := 0 to |PAYLOAD_KEYS|
      invariant seen == set h | h in hints
      invariant NoDup(hints)
      invariant forall h :: h in hints <==> exists k :: k < n && From(payload, k, h)
    {
      var (key, kind) := PAYLOAD_KEYS[n];
      if key !in payload || !payload[key].Text? {
        continue;
      }
      var hint := Hint(kind, Normalize(kind, payload[key].text));
      if hint.value == "" {
        continue;
      }
      assert From(payload, n, hint);
      if hint in seen {
        continue;
      }
      seen := seen + {hint};
      hints := hints + [hint];
    }
    ByPrioritySorts(hints);
    ByPriorityDistinct(hints);
    hints := ByPriority(hints);
    forall h | h in hints
      ensures h.value != "" && IndexValue(h.kind, h.value) == h.value
    {
      var n: nat :| n < |PAYLOAD_KEYS| && From(payload, n, h);
      NormalizeStable(h.kind, payload[PAYLOAD_KEYS[n].0].text);
    }
  }
}
