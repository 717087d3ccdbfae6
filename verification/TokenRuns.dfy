/** What the tokeniser reads and the hash yields, said without running them. */
module TokenRuns {
  import opened Common
  import Identities
  import opened NormalForms
  import opened Embeddings

  predicate WordChar(c: char) {
    'a' <= c <= 'z' || 'A' <= c <= 'Z' || '0' <= c <= '9'
  }

  /** A maximal run of letters and digits, of at least two of them. */
  predicate IsRun(text: string, i: int, j: int) {
    && 0 <= i && i + 2 <= j <= |text|
    && (forall k :: i <= k < j ==> WordChar(text[k]))
    && (i > 0 ==> !WordChar(text[i - 1]))
    && (j < |text| ==> !WordChar(text[j]))
  }

  /** The token of a run: the same letters, in lower case. */
  ghost predicate TokenOf(text: string, i: int, j: int, token: string) {
    IsRun(text, i, j) && CaseAlike(text[i..j], token) && NoCapitals(token)
  }

  lemma LowerMore(word: string, c: char)
    ensures Identities.Lower(word + [c]) == Identities.Lower(word) + [LowerChar(c)]
  {
  }

  /** Where the text at `p` stands: inside a run of word characters since `q`. */
  predicate Since(text: string, q: nat, p: nat) {
    && q <= p <= |text|
    && (forall k :: q <= k < p ==> WordChar(text[k]))
    && (q > 0 ==> !WordChar(text[q - 1]))
  }

  lemma RunsFrom(text: string, q: nat, p: nat, i: int, j: int)
    requires Since(text, q, p) && (p == |text| || !WordChar(text[p]))
    ensures IsRun(text, i, j) && i >= q ==> (i == q && j == p) || (p < |text| && i >= p + 1)
    ensures p - q >= 2 ==> IsRun(text, q, p)
    ensures IsRun(text, q, j) ==> j == p || q == p
  {
    if IsRun(text, i, j) && q <= i < p {
      assert i == q;
    }
  }

  /** The runs from `q` on, left to right, with their tokens. */
  ghost predicate Reads(text: string, q: nat, tokens: seq<string>, starts: seq<int>, ends: seq<int>) {
    && |starts| == |ends| == |tokens|
    && (forall n :: 0 <= n < |starts| ==> q <= starts[n] && TokenOf(text, starts[n], ends[n], tokens[n]))
    && Ascending(starts)
    && (forall i, j :: IsRun(text, i, j) && i >= q ==> i in starts)
  }

  lemma AscendingCons(x: int, xs: seq<int>)
    requires Ascending(xs) && forall y <- xs :: x < y
    ensures Ascending([x] + xs)
  {
    assert forall l :: 0 <= l < |xs| ==> xs[l] in xs;
  }

  /** Puts the run from `q` to `p` before those after it. */
  lemma PrependRun(text: string, q: nat, p: nat, tokens: seq<string>, starts: seq<int>, ends: seq<int>)
    requires Since(text, q, p) && (p == |text| || !WordChar(text[p])) && p - q >= 2
    requires Reads(text, p + 1, tokens, starts, ends)
    ensures Reads(text, q, [Identities.Lower(text[q..p])] + tokens, [q] + starts, [p] + ends)
  {
    hide IsRun, CaseAlike, NoCapitals, WordChar, Ascending, Since;
    RunsFrom(text, q, p, q, p);
    LowerAlike(text[q..p], "");
    var word := Identities.Lower(text[q..p]);
    var (words, ss, es) := ([word] + tokens, [q] + starts, [p] + ends);
    assert Since(text, q, p) ==> q <= p by {
      SinceOrdered(text, q, p);
    }
    forall n | 0 <= n < |ss|
      ensures q <= ss[n] && TokenOf(text, ss[n], es[n], words[n])
    {
      if n > 0 {
        assert TokenOf(text, starts[n - 1], ends[n - 1], tokens[n - 1]);
      }
    }
    AscendingCons(q, starts);
    forall i, j | IsRun(text, i, j) && i >= q
      ensures i in ss
    {
      RunsFrom(text, q, p, i, j);
      if i == q {
        assert ss[0] == i;
      } else {
        assert i in starts;
      }
    }
  }

  lemma SinceOrdered(text: string, q: nat, p: nat)
    ensures Since(text, q, p) ==> q <= p <= |text|
  {
  }

  /** A piece of one character is passed over. */
  lemma PassOver(text: string, q: nat, p: nat, tokens: seq<string>, starts: seq<int>, ends: seq<int>)
    requires Since(text, q, p) && (p == |text| || !WordChar(text[p])) && p - q < 2
    requires Reads(text, p + 1, tokens, starts, ends)
    ensures Reads(text, q, tokens, starts, ends)
  {
    hide IsRun, CaseAlike, NoCapitals, WordChar, Ascending, Since;
    SinceOrdered(text, q, p);
    forall i, j | IsRun(text, i, j) && i >= q
      ensures i in starts
    {
      RunsFrom(text, q, p, i, j);
      TooShort(text, q, p);
    }
  }

  lemma NoRunsLeft(text: string)
    ensures Reads(text, |text| + 1, [], [], [])
  {
  }

  lemma {:induction false} Runs(text: string, q: nat, p: nat) returns (starts: seq<int>, ends: seq<int>)
    requires Since(text, q, p)
    ensures Reads(text, q, Tokens(text[p..], Identities.Lower(text[q..p])), starts, ends)
    decreases |text| - p
  {
    hide Reads, IsRun;
    var word := Identities.Lower(text[q..p]);
    if p < |text| {
      assert text[p..][0] == text[p] && text[p..][1..] == text[p + 1..];
      TokenChar(text[p]);
    }
    if p < |text| && WordChar(text[p]) {
      assert text[q..p + 1] == text[q..p] + [text[p]];
      LowerMore(text[q..p], text[p]);
      starts, ends := Runs(text, q, p + 1);
    } else {
      var tokens := [];
      starts, ends := [], [];
      if p < |text| {
        starts, ends := Runs(text, p + 1, p + 1);
        assert text[p + 1..p + 1] == "" && Identities.Lower("") == "";
        tokens := Tokens(text[p + 1..], "");
      } else {
        NoRunsLeft(text);
      }
      assert |word| == p - q;
      if p - q >= 2 {
        PrependRun(text, q, p, tokens, starts, ends);
        assert Tokens(text[p..], word) == [word] + tokens;
        starts, ends := [q] + starts, [p] + ends;
      } else {
        PassOver(text, q, p, tokens, starts, ends);
        assert Tokens(text[p..], word) == [] + tokens == tokens;
      }
    }
  }

  lemma TokenChar(c: char)
    ensures IsTokenChar(LowerChar(c)) <==> WordChar(c)
  {
  }

  lemma TooShort(text: string, q: nat, p: nat)
    ensures p - q < 2 ==> !IsRun(text, q, p)
  {
  }

  /** The tokens of a text are its maximal runs of two or more ASCII letters and
      digits, from left to right, in lower case. */
  lemma TokensAreRuns(text: string) returns (starts: seq<int>, ends: seq<int>)
    ensures var tokens := Tokens(text, "");
            && |starts| == |ends| == |tokens|
            && forall n :: 0 <= n < |starts| ==> TokenOf(text, starts[n], ends[n], tokens[n])
    ensures Ascending(starts)
    ensures forall i, j :: IsRun(text, i, j) ==> i in starts
  {
    hide IsRun;
    assert text[0..] == text && text[0..0] == "" && Identities.Lower("") == "";
    starts, ends := Runs(text, 0, 0);
    forall i, j | IsRun(text, i, j)
      ensures i in starts
    {
      RunStarts(text, i, j);
    }
  }

  lemma RunStarts(text: string, i: int, j: int)
    ensures IsRun(text, i, j) ==> i >= 0
  {
  }

  lemma FnvPlus(token: string, c: char)
    ensures Fnv(token + [c]) == FnvByte(Fnv(token), c)
  {
    assert (token + [c])[..|token|] == token;
  }

  /** The published FNV-1a values of the empty text, of "a" and of "fo". */
  lemma FnvKnown()
    ensures Fnv("") == 0x811C_9DC5
    ensures Fnv("a") == 0xE40C_292C
    ensures Fnv("fo") == 0x6222_E842
  {
    hide FnvByte;
    ByteA();
    ByteF();
    ByteO();
    FnvPlus("", 'a');
    FnvPlus("", 'f');
    FnvPlus("f", 'o');
    assert "" + ['a'] == "a" && "" + ['f'] == "f" && "f" + ['o'] == "fo";
  }

  lemma ByteA()
    ensures FnvByte(0x811C_9DC5, 'a') == 0xE40C_292C
  {
  }

  lemma ByteF()
    ensures FnvByte(0x811C_9DC5, 'f') == 0xE30C_2799
  {
  }

  lemma ByteO()
    ensures FnvByte(0xE30C_2799, 'o') == 0x6222_E842
  {
  }

  lemma RatioTimes(d: real, s: real, t: real)
    requires s > 0.0 && t > 0.0
    ensures Times(Ratio(d, s, t), Times(s, t)) == Times(d, d)
  {
    TimesNonNegative(s, t);
    var p := s * t;
    assert (d * d) / p * p == d * d;
  }

  /** The squared cosine: the squared inner product over the squared lengths. */
  lemma SimilarityLaw(a: Vec, b: Vec)
    requires Embedded(a) && Embedded(b)
    ensures Times(SimSq(a, b), Times(Dot(a, a, DIM), Dot(b, b, DIM))) == Times(Dot(a, b, DIM), Dot(a, b, DIM))
  {
    hide Dot, Ratio, Times;
    if a != map[] && b != map[] {
      var i :| i in a;
      var j :| j in b;
      NormPositive(a, DIM, i);
      NormPositive(b, DIM, j);
      RatioTimes(Dot(a, b, DIM), Dot(a, a, DIM), Dot(b, b, DIM));
    } else {
      if b == map[] {
        DotWithZero(a, b, DIM);
      } else {
        DotWithZero(b, a, DIM);
        DotSymmetric(a, b, DIM);
      }
      ZeroTimes(Times(Dot(a, a, DIM), Dot(b, b, DIM)));
      ZeroTimes(0.0);
    }
  }

  lemma ZeroTimes(x: real)
    ensures Times(0.0, x) == 0.0
  {
  }
}
