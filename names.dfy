/**
 * The candidate names of getName (src/main.cc): the first character is
 * taken from a category alphabet, followed, when the counter has wrapped
 * around the alphabet, by the base-62 digits of the quotient written least
 * significant digit first. Decode is the inverse, which gives injectivity.
 */
module Names {
  import opened Common

  /** `count` consecutive characters starting at `first`. */
  function Letters(first: char, count: nat): (s: string)
    requires first as int + count <= 0xD800
    ensures |s| == count
    ensures forall i :: 0 <= i < count ==> s[i] as int == first as int + i
  {
    seq(count, i requires 0 <= i < count => (first as int + i) as char)
  }

  /** No character of the alphabet occurs twice. */
  predicate Distinct(p: string)
  {
    forall i, j :: 0 <= i < |p| && 0 <= j < |p| && i != j ==> p[i] != p[j]
  }

  /** An alphabet getName can draw from: nonempty, with distinct characters. */
  predicate Alphabet(p: string)
  {
    |p| > 0 && Distinct(p)
  }

  /** The digit table of getName, in order. */
  const Digits: string := "0123456789" + "ABCDEFGHIJKLMNOPQRSTUVWXYZ" + "abcdefghijklmnopqrstuvwxyz"

  /** Digit `d` of the table, computed from its position. */
  function DigitChar(d: nat): (c: char)
    requires d < 62
  {
    if d < 10 then ('0' as int + d) as char
    else if d < 36 then ('A' as int + d - 10) as char
    else ('a' as int + d - 36) as char
  }

  lemma DigitsTable()
    ensures |Digits| == 62
    ensures forall d :: 0 <= d < 62 ==> Digits[d] == DigitChar(d)
  {
    assert "0123456789" == Letters('0', 10);
    assert "ABCDEFGHIJKLMNOPQRSTUVWXYZ" == Letters('A', 26);
    assert "abcdefghijklmnopqrstuvwxyz" == Letters('a', 26);
  }

  predicate IsDigit(c: char)
  {
    '0' <= c <= '9' || 'A' <= c <= 'Z' || 'a' <= c <= 'z'
  }

  /** Position of a digit character in the table. */
  function DigitValue(c: char): (d: nat)
    requires IsDigit(c)
    ensures d < 62 && DigitChar(d) == c
  {
    if c <= '9' then c as int - '0' as int
    else if c <= 'Z' then c as int - 'A' as int + 10
    else c as int - 'a' as int + 36
  }

  lemma DigitCharValue(d: nat)
    requires d < 62
    ensures IsDigit(DigitChar(d)) && DigitValue(DigitChar(d)) == d
  {
  }

  predicate AllDigits(s: string)
  {
    forall i :: 0 <= i < |s| ==> IsDigit(s[i])
  }

  /** A digit string getName can produce: nonempty, most significant digit (the last) not '0'. */
  predicate Canonical(s: string)
  {
    |s| > 0 && AllDigits(s) && s[|s| - 1] != '0'
  }

  /** Base-62 digits of q > 0, least significant first (the inner do-while of getName). */
  function Base62(q: nat): (s: string)
    requires q > 0
    ensures Canonical(s)
    decreases q
  {
    DigitCharValue(q % 62);
    if q / 62 == 0 then
      DigitCharValue(0);
      [DigitChar(q % 62)]
    else
      [DigitChar(q % 62)] + Base62(q / 62)
  }

  /** Value of a digit string read least significant digit first. */
  function Value62(s: string): nat
    requires AllDigits(s)
  {
    if s == [] then 0 else DigitValue(s[0]) + 62 * Value62(s[1..])
  }

  lemma {:induction false} Value62OfBase62(q: nat)
    requires q > 0
    ensures Value62(Base62(q)) == q
    decreases q
  {
    DigitCharValue(q % 62);
    if q / 62 != 0 {
      Value62OfBase62(q / 62);
      assert Base62(q)[1..] == Base62(q / 62);
    }
  }

  lemma {:induction false} Base62OfValue62(s: string)
    requires Canonical(s)
    ensures Value62(s) > 0 && Base62(Value62(s)) == s
    decreases |s|
  {
    if |s| == 1 {
      Base62OfDigit(s);
    } else {
      var t := s[1..];
      assert t[|t| - 1] == s[|s| - 1];
      Base62OfValue62(t);
      Base62OfCons(s);
    }
  }

  /** A single nonzero digit is its own expansion. */
  lemma Base62OfDigit(s: string)
    requires Canonical(s) && |s| == 1
    ensures Value62(s) > 0 && Base62(Value62(s)) == s
  {
    var d := DigitValue(s[0]);
    assert s[1..] == [];
    assert Value62(s) == d;
    DigitCharValue(0);
    assert d != 0;
    assert Base62(d) == [DigitChar(d)];
  }

  /** A digit in front of a canonical expansion: the step of Base62OfValue62. */
  lemma Base62OfCons(s: string)
    requires Canonical(s) && |s| > 1 && Value62(s[1..]) > 0 && Base62(Value62(s[1..])) == s[1..]
    ensures Value62(s) > 0 && Base62(Value62(s)) == s
  {
    var d := DigitValue(s[0]);
    var w := Value62(s[1..]);
    var v := Value62(s);
    assert v == d + 62 * w;
    DivModUnique(v, 62, w, d);
    assert Base62(v) == [DigitChar(d)] + Base62(w);
    assert s == [s[0]] + s[1..];
  }

  lemma {:induction false} MulAtLeast(k: nat, t: int)
    requires t >= 1
    ensures k * t >= k
    decreases t
  {
    if t > 1 {
      MulAtLeast(k, t - 1);
      assert k * t == k * (t - 1) + k;
    }
  }

  /** Euclidean division facts for a positive divisor. */
  lemma DivModUnique(x: nat, k: nat, q: nat, r: nat)
    requires k > 0 && r < k && x == q * k + r
    ensures x / k == q && x % k == r
  {
    var q', r' := x / k, x % k;
    assert x == k * q' + r';
    var t := q' - q;
    assert k * t == r - r';
    if t >= 1 {
      MulAtLeast(k, t);
    } else if t <= -1 {
      MulAtLeast(k, -t);
    }
  }

  /**
   * Quotient and remainder by repeated subtraction. They agree with `/` and
   * `%` (QuotRemAreDivMod); keeping the candidate definition on these keeps
   * the proofs about the allocation counters linear.
   */
  /** q * k by repeated addition. */
  function Mul(q: nat, k: nat): nat
    decreases q
  {
    if q == 0 then 0 else Mul(q - 1, k) + k
  }

  lemma {:induction false} MulIsProduct(q: nat, k: nat)
    ensures Mul(q, k) == q * k
    decreases q
  {
    if q > 0 {
      MulIsProduct(q - 1, k);
      assert q * k == (q - 1) * k + k;
    }
  }

  function Quot(x: nat, k: nat): nat
    requires k > 0
    decreases x
  {
    if x < k then 0 else 1 + Quot(x - k, k)
  }

  function Rem(x: nat, k: nat): (r: nat)
    requires k > 0
    ensures r < k
    decreases x
  {
    if x < k then x else Rem(x - k, k)
  }

  lemma {:induction false} QuotRemSum(x: nat, k: nat)
    requires k > 0
    ensures Mul(Quot(x, k), k) + Rem(x, k) == x
    decreases x
  {
    if x >= k {
      QuotRemSum(x - k, k);
    }
  }

  lemma {:induction false} QuotRemUnique(x: nat, k: nat, q: nat, r: nat)
    requires k > 0 && r < k && x == Mul(q, k) + r
    ensures Quot(x, k) == q && Rem(x, k) == r
    decreases q
  {
    if q > 0 {
      QuotRemUnique(x - k, k, q - 1, r);
    }
  }

  lemma QuotRemAreDivMod(x: nat, k: nat)
    requires k > 0
    ensures x / k == Quot(x, k) && x % k == Rem(x, k)
  {
    QuotRemSum(x, k);
    MulIsProduct(Quot(x, k), k);
    DivModUnique(x, k, Quot(x, k), Rem(x, k));
  }

  /** The name getName tries for counter value `id` (src/main.cc:59-62). */
  function Candidate(p: string, id: nat): (s: string)
    requires |p| > 0
    ensures |s| > 0 && s[0] == p[Rem(id, |p|)]
    ensures |s| == 1 <==> id < |p|
  {
    [p[Rem(id, |p|)]] + if Quot(id, |p|) == 0 then [] else Base62(Quot(id, |p|))
  }

  function IndexOf(p: string, c: char): (i: nat)
    requires c in p
    ensures i < |p| && p[i] == c
    ensures forall j :: 0 <= j < i ==> p[j] != c
  {
    if p[0] == c then 0 else 1 + IndexOf(p[1..], c)
  }

  /** The counter value whose candidate is `s`, if there is one. */
  function Decode(p: string, s: string): (r: Option<nat>)
    requires |p| > 0
  {
    if |s| == 0 || s[0] !in p then None
    else if |s| == 1 then Some(IndexOf(p, s[0]))
    else if Canonical(s[1..]) then Some(IndexOf(p, s[0]) + Mul(Value62(s[1..]), |p|))
    else None
  }

  lemma DecodeCandidate(p: string, id: nat)
    requires Alphabet(p)
    ensures Decode(p, Candidate(p, id)) == Some(id)
  {
    var k := |p|;
    QuotRemSum(id, k);
    CandidateQR(p, id);
    DecodeParts(p, Quot(id, k), Rem(id, k), Candidate(p, id), id);
  }

  /** Decoding a letter followed by the digits of q gives back q and the letter's position. */
  lemma DecodeParts(p: string, q: nat, r: nat, s: string, x: nat)
    requires Alphabet(p) && r < |p| && s == [p[r]] + if q == 0 then [] else Base62(q)
    requires x == Mul(q, |p|) + r
    ensures Decode(p, s) == Some(x)
  {
    assert IndexOf(p, s[0]) == r;
    if q == 0 {
      assert s == [p[r]];
    } else {
      assert s[1..] == Base62(q);
      Value62OfBase62(q);
    }
  }

  /** The candidate of the counter value with quotient q and remainder r. */
  lemma CandidateAt(p: string, x: nat, q: nat, r: nat)
    requires r < |p| && x == Mul(q, |p|) + r
    ensures Candidate(p, x) == [p[r]] + if q == 0 then [] else Base62(q)
  {
    QuotRemUnique(x, |p|, q, r);
    CandidateQR(p, x);
  }

  lemma CandidateQR(p: string, x: nat)
    requires |p| > 0
    ensures Candidate(p, x) == [p[Rem(x, |p|)]] + if Quot(x, |p|) == 0 then [] else Base62(Quot(x, |p|))
  {
  }

  lemma CandidateOfDigits(p: string, c: char, t: string)
    requires c in p && Canonical(t)
    ensures Candidate(p, Mul(Value62(t), |p|) + IndexOf(p, c)) == [c] + t
  {
    Base62OfValue62(t);
    CandidateAt(p, Mul(Value62(t), |p|) + IndexOf(p, c), Value62(t), IndexOf(p, c));
  }

  lemma CandidateDecode(p: string, s: string)
    requires |p| > 0 && Decode(p, s).Some?
    ensures Candidate(p, Decode(p, s).value) == s
  {
    if |s| == 1 {
      CandidateAt(p, IndexOf(p, s[0]), 0, IndexOf(p, s[0]));
    } else {
      CandidateOfDigits(p, s[0], s[1..]);
      assert s == [s[0]] + s[1..];
    }
  }

  /** Distinct counter values give distinct candidates (for a distinct alphabet). */
  lemma CandidateInjective(p: string, i: nat, j: nat)
    requires Alphabet(p)
    ensures Candidate(p, i) == Candidate(p, j) ==> i == j
  {
    DecodeCandidate(p, i);
    DecodeCandidate(p, j);
  }

  /**
   * The inner `do { name += digit(i % 62); i /= 62; } while (i)` of getName
   * (src/main.cc:60-62): appends the base-62 digits of i.
   */
  method AppendDigits(prefix: string, q: nat) returns (name: string)
    requires q > 0
    ensures name == prefix + Base62(q)
  {
    name := prefix;
    var i := q;
    while true
      invariant i > 0 && name + Base62(i) == prefix + Base62(q)
      decreases i
    {
      assert Base62(i) == [DigitChar(i % 62)] + (if i / 62 == 0 then [] else Base62(i / 62));
      name := name + [DigitChar(i % 62)];
      i := i / 62;
      if i == 0 {
        break;
      }
    }
  }

  /**
   * The candidate construction of getName as the source writes it: the
   * alphabet character, then the digits of the quotient when it is nonzero.
   */
  method CandidateOf(p: string, id: nat) returns (name: string)
    requires |p| > 0
    ensures name == Candidate(p, id)
  {
    QuotRemAreDivMod(id, |p|);
    name := [p[id % |p|]];
    var i := id / |p|;
    if i != 0 {
      name := AppendDigits(name, i);
    }
  }
}
