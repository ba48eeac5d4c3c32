/**
 * The analysis job record (`AnalysisRequest`): the repository URL, the
 * lifecycle status, the error message and the creation instant, with the
 * identity-based `equals` and `hashCode`.
 */
module AnalysisRequests {
  import opened Wrappers
  import opened Decimal
  import opened CheckstyleRules

  /** `RequestStatus`, in declaration order. */
  datatype RequestStatus = PENDING | CLONING | ANALYZING | COMPLETED | FAILED

  const Statuses: seq<RequestStatus> := [PENDING, CLONING, ANALYZING, COMPLETED, FAILED]

  /** `Enum.name()`. */
  function Name(s: RequestStatus): string {
    match s
    case PENDING => "PENDING"
    case CLONING => "CLONING"
    case ANALYZING => "ANALYZING"
    case COMPLETED => "COMPLETED"
    case FAILED => "FAILED"
  }

  /** `Enum.ordinal()`. */
  function Ordinal(s: RequestStatus): (i: nat)
    ensures i < 5
  {
    match s
    case PENDING => 0
    case CLONING => 1
    case ANALYZING => 2
    case COMPLETED => 3
    case FAILED => 4
  }

  /** There are exactly five statuses, listed in declaration order. */
  lemma StatusesInDeclarationOrder()
    ensures |Statuses| == 5
    ensures forall i :: 0 <= i < |Statuses| ==> Ordinal(Statuses[i]) == i
    ensures forall s :: Statuses[Ordinal(s)] == s
  {
  }

  /** Distinct statuses have distinct names, so a stored name identifies the status. */
  lemma NamesDistinct(s: RequestStatus, t: RequestStatus)
    ensures Name(s) == Name(t) ==> s == t
  {
  }

  /** Java `int` arithmetic: `x` wrapped into the 32-bit two's complement range. */
  function Wrap32(x: int): (r: Int32)
    ensures (r - x) % 0x1_0000_0000 == 0
    ensures INT_MIN <= x <= INT_MAX ==> r == x
  {
    (x + 0x8000_0000) % 0x1_0000_0000 - 0x8000_0000
  }

  const TWO_32: int := 0x1_0000_0000

  /** `a` and `b` agree modulo 2^32, as Java `int` arithmetic sees them. */
  predicate Congruent32(a: int, b: int) {
    (a - b) % TWO_32 == 0
  }

  /** `31 * h + c` keeps agreement modulo 2^32. */
  lemma CongruentStep(r: int, h: int, p: int, c: int)
    requires Congruent32(r, 31 * h + c) && Congruent32(h, p)
    ensures Congruent32(r, 31 * p + c)
  {
    var x, y := (r - (31 * h + c)) / TWO_32, (h - p) / TWO_32;
    assert r - (31 * h + c) == TWO_32 * x;
    assert h - p == TWO_32 * y;
    assert r - (31 * p + c) == TWO_32 * (x + 31 * y);
  }

  /** `2^n`. */
  function Pow2(n: nat): (p: nat)
    ensures p >= 1
  {
    if n == 0 then 1 else 2 * Pow2(n - 1)
  }

  /** The exclusive-or of the lowest `n` bits of `a` and `b`, lowest bit
      first. */
  function Xor(a: nat, b: nat, n: nat): nat
    decreases n
  {
    if n == 0 then 0 else (if a % 2 == b % 2 then 0 else 1) + 2 * Xor(a / 2, b / 2, n - 1)
  }

  /** Exclusive-or with zero keeps a value of `n` bits. */
  lemma {:induction false} XorZero(a: nat, n: nat)
    requires a < Pow2(n)
    ensures Xor(a, 0, n) == a
    decreases n
  {
    if n > 0 {
      XorZero(a / 2, n - 1);
    }
  }

  /** Exclusive-or with `n` one bits complements a value of `n` bits. */
  lemma {:induction false} XorOnes(a: nat, n: nat)
    requires a < Pow2(n)
    ensures Xor(a, Pow2(n) - 1, n) == Pow2(n) - 1 - a
    decreases n
  {
    if n > 0 {
      assert (Pow2(n) - 1) / 2 == Pow2(n - 1) - 1 && (Pow2(n) - 1) % 2 == 1;
      XorOnes(a / 2, n - 1);
    }
  }

  lemma Pow2Of32()
    ensures Pow2(32) == TWO_32
  {
    assert Pow2(8) == 0x100;
    assert Pow2(16) == 0x1_0000;
    assert Pow2(24) == 0x100_0000;
  }

  /** The low and high 32-bit words of the two's-complement bits of `v`. */
  function LowWord(v: Int64): (w: nat)
    ensures w < TWO_32
  {
    (v % 0x1_0000_0000_0000_0000) % TWO_32
  }

  function HighWord(v: Int64): (w: nat)
    ensures w < TWO_32
  {
    (v % 0x1_0000_0000_0000_0000) / TWO_32
  }

  /** The two words make up the 64 bits of `v`. */
  lemma WordsOfLong(v: Int64)
    ensures HighWord(v) * TWO_32 + LowWord(v) == v % 0x1_0000_0000_0000_0000
  {
  }

  /** `Long.hashCode`: `(int) (v ^ (v >>> 32))`, the low word of the long
      exclusive-or its high word. A long within the `int` range hashes to
      itself when it is not negative and to its complement `-v - 1` when it
      is. */
  function LongHash(v: Int64): (r: Int32)
    ensures Congruent32(r, WordsXor(v))
    ensures 0 <= v <= INT_MAX ==> r == v
    ensures INT_MIN <= v < 0 ==> r == -v - 1
  {
    XorOfNonNegative(v);
    XorOfNegative(v);
    Wrap32(WordsXor(v))
  }

  /** `v ^ (v >>> 32)` restricted to its low 32 bits: the exclusive-or of
      the two words. */
  function WordsXor(v: Int64): nat {
    Xor(LowWord(v), HighWord(v), 32)
  }

  /** For a long in `0 .. INT_MAX` the high word is zero, so the
      exclusive-or is the value. */
  lemma XorOfNonNegative(v: Int64)
    ensures 0 <= v <= INT_MAX ==> WordsXor(v) == v
  {
    if 0 <= v <= INT_MAX {
      Pow2Of32();
      assert LowWord(v) == v && HighWord(v) == 0;
      XorZero(LowWord(v), 32);
    }
  }

  /** For a long in `INT_MIN .. -1` the high word is all ones and the low
      word is `2^32 + v`, so the exclusive-or is `-v - 1`. */
  lemma XorOfNegative(v: Int64)
    ensures INT_MIN <= v < 0 ==> WordsXor(v) == -v - 1
  {
    if INT_MIN <= v < 0 {
      Pow2Of32();
      var u := v % 0x1_0000_0000_0000_0000;
      assert u == (TWO_32 - 1) * TWO_32 + (TWO_32 + v);
      assert LowWord(v) == TWO_32 + v && HighWord(v) == Pow2(32) - 1;
      XorOnes(LowWord(v), 32);
    }
  }

  /** `31^n`. */
  function Pow31(n: nat): nat {
    if n == 0 then 1 else 31 * Pow31(n - 1)
  }

  /** The documented value of `String.hashCode` before `int` overflow:
      `s[0]*31^(n-1) + s[1]*31^(n-2) + ... + s[n-1]`. */
  function PowerSum(s: string): int
    decreases |s|
  {
    if s == [] then 0 else s[0] as int * Pow31(|s| - 1) + PowerSum(s[1..])
  }

  /** Appending a character multiplies the sum by 31 and adds the character. */
  lemma {:induction false} PowerSumSnoc(s: string, c: char)
    ensures PowerSum(s + [c]) == 31 * PowerSum(s) + c as int
    decreases |s|
  {
    if s == [] {
      assert [] + [c] == [c];
    } else {
      var t := s[1..];
      PowerSumSnoc(t, c);
      assert (s + [c])[0] == s[0] && (s + [c])[1..] == t + [c];
      assert s[0] as int * Pow31(|t| + 1) == 31 * (s[0] as int * Pow31(|t|));
    }
  }

  /** `String.hashCode`: `h = 31 * h + c` over the characters, in `int`
      arithmetic, which is the documented sum modulo 2^32. */
  function StringHash(s: string): (r: Int32)
    ensures Congruent32(r, PowerSum(s))
    decreases |s|
  {
    if s == [] then 0
    else
      var init, last := s[..|s| - 1], s[|s| - 1];
      var h := StringHash(init);
      var r := Wrap32(31 * h + last as int);
      assert s == init + [last];
      PowerSumSnoc(init, last);
      CongruentStep(r, h, PowerSum(init), last as int);
      r
  }

  /** `Arrays.hashCode` of two element hashes, in `int` arithmetic: it agrees
      with the exact sum modulo 2^32, and gives 961 for two zero hashes. */
  function PairHash(a: Int32, b: Int32): (r: Int32)
    ensures Congruent32(r, 961 + 31 * a + b)
    ensures a == 0 && b == 0 ==> r == 961
  {
    var h := Wrap32(31 + a);
    CongruentStep(Wrap32(31 * h + b), h, 31 + a, b);
    Wrap32(31 * h + b)
  }

  /** `Objects.hash(id, repoUrl)`: `Arrays.hashCode` of the pair,
      `31 * (31 * 1 + h(id)) + h(repoUrl)` in `int` arithmetic, a null
      counting as 0. */
  function RequestHash(id: Option<Int64>, repoUrl: Option<string>): (r: Int32)
    ensures Congruent32(r, 961 + 31 * (if id.Some? then LongHash(id.value) else 0)
                                 + (if repoUrl.Some? then StringHash(repoUrl.value) else 0))
    ensures id.None? && repoUrl.None? ==> r == 961
  {
    PairHash(if id.Some? then LongHash(id.value) else 0, if repoUrl.Some? then StringHash(repoUrl.value) else 0)
  }

  /** The persisted columns of a request, as saved. */
  datatype RequestRecord = RequestRecord(
    id: Option<Int64>,
    repoUrl: Option<string>,
    status: Option<RequestStatus>,
    errorMessage: Option<string>,
    createdAt: Option<Timestamp>)

  class AnalysisRequest {
    var id: Option<Int64>
    var repoUrl: Option<string>
    var status: Option<RequestStatus>
    var errorMessage: Option<string>
    var createdAt: Option<Timestamp>

    /** `new AnalysisRequest()`: PENDING, created now. */
    constructor Empty(now: Timestamp)
      ensures Record() == RequestRecord(None, None, Some(PENDING), None, Some(now))
    {
      id := None;
      repoUrl := None;
      status := Some(PENDING);
      errorMessage := None;
      createdAt := Some(now);
    }

    /** `new AnalysisRequest(repoUrl)`: the defaults of the empty
        constructor, then the URL. */
    constructor (repoUrl: string, now: Timestamp)
      ensures Record() == RequestRecord(None, Some(repoUrl), Some(PENDING), None, Some(now))
    {
      id := None;
      this.repoUrl := Some(repoUrl);
      status := Some(PENDING);
      errorMessage := None;
      createdAt := Some(now);
    }

    function Record(): RequestRecord
      reads this
    {
      RequestRecord(id, repoUrl, status, errorMessage, createdAt)
    }

    method SetId(v: Option<Int64>)
      modifies this
      ensures Record() == old(Record()).(id := v)
    {
      id := v;
    }

    method SetRepoUrl(v: Option<string>)
      modifies this
      ensures Record() == old(Record()).(repoUrl := v)
    {
      repoUrl := v;
    }

    method SetStatus(v: Option<RequestStatus>)
      modifies this
      ensures Record() == old(Record()).(status := v)
    {
      status := v;
    }

    method SetErrorMessage(v: Option<string>)
      modifies this
      ensures Record() == old(Record()).(errorMessage := v)
    {
      errorMessage := v;
    }

    method SetCreatedAt(v: Option<Timestamp>)
      modifies this
      ensures Record() == old(Record()).(createdAt := v)
    {
      createdAt := v;
    }

    /** `equals`: the same object, or another request with the same id and
        URL; status, error message and creation instant are not compared. */
    predicate Equals(other: AnalysisRequest?)
      reads this, other
      ensures Equals(other) ==> other != null && id == other.id && repoUrl == other.repoUrl
      ensures other != null && id == other.id && repoUrl == other.repoUrl ==> Equals(other)
    {
      other != null && (this == other || (id == other.id && repoUrl == other.repoUrl))
    }

    /** `hashCode`. */
    function HashCode(): (r: Int32)
      reads this
      ensures Congruent32(r, 961 + 31 * (if id.Some? then LongHash(id.value) else 0)
                                   + (if repoUrl.Some? then StringHash(repoUrl.value) else 0))
      ensures id.None? && repoUrl.None? ==> r == 961
    {
      RequestHash(id, repoUrl)
    }
  }

  /** Two requests are equal exactly when they agree on id and URL. */
  lemma EqualsOnIdAndUrl(a: AnalysisRequest, b: AnalysisRequest)
    ensures a.Equals(b) <==> a.id == b.id && a.repoUrl == b.repoUrl
  {
  }

  /** `equals` is reflexive, symmetric and transitive, and rejects null. */
  lemma EqualsIsEquivalence(a: AnalysisRequest, b: AnalysisRequest, c: AnalysisRequest)
    ensures a.Equals(a) && !a.Equals(null)
    ensures a.Equals(b) ==> b.Equals(a)
    ensures a.Equals(b) && b.Equals(c) ==> a.Equals(c)
  {
  }

  /** `hashCode` agrees with `equals`. */
  lemma HashCodeAgreesWithEquals(a: AnalysisRequest, b: AnalysisRequest)
    requires a.Equals(b)
    ensures a.HashCode() == b.HashCode()
  {
  }
}
