/** Failure-compatible wrappers shared by every module of the model. */
module Base {

  /** Python's `None` or a value. */
  datatype Option<T> = None | Some(value: T)

  /** A value, or the message of the exception the source would raise. */
  datatype Result<T> = Ok(value: T) | Err(error: string)

  /** Python's `max(0, x)`. */
  function Max0(x: int): nat
  {
    if x < 0 then 0 else x
  }

  /** Python's `min(a, b)`. */
  function Min(a: int, b: int): int
  {
    if a < b then a else b
  }

  /** Extending a prefix by the next element gives the next prefix. */
  lemma PrefixSnoc<T>(s: seq<T>, k: int)
    requires 0 <= k < |s|
    ensures s[..k + 1] == s[..k] + [s[k]]
  {
  }

  /** A prefix of `b` is a prefix of `b` extended. */
  lemma PrefixExtends<T>(a: seq<T>, b: seq<T>, c: seq<T>)
    requires a <= b
    ensures a <= b + c
  {
    assert (b + c)[..|b|] == b;
    assert a == (b + c)[..|a|];
  }

  /** The first position where `x` occurs in `s`. */
  function Position<T(==)>(s: seq<T>, x: T): (r: nat)
    requires x in s
    ensures r < |s| && s[r] == x
  {
    if s[0] == x then 0 else 1 + Position(s[1..], x)
  }

  /** The values of the first `k` results in order while all of them are `Ok`, else the first error. */
  function AllOk<T>(rs: seq<Result<T>>, k: nat): Result<seq<T>>
    requires k <= |rs|
  {
    if k == 0 then Ok([])
    else
      var prev := AllOk(rs, k - 1);
      if prev.Err? then prev
      else match rs[k - 1]
        case Err(e) => Err(e)
        case Ok(v) => Ok(prev.value + [v])
  }

  /**
   * `AllOk` succeeds exactly when every result is `Ok`, and then lists their
   * values in order; otherwise it carries the error of the first failure.
   */
  lemma {:induction false} AllOkFacts<T>(rs: seq<Result<T>>, k: nat)
    requires k <= |rs|
    ensures var r := AllOk(rs, k);
      && (r.Ok? <==> forall i :: 0 <= i < k ==> rs[i].Ok?)
      && (r.Ok? ==> |r.value| == k && forall i :: 0 <= i < k ==> r.value[i] == rs[i].value)
      && (r.Err? ==> exists i :: 0 <= i < k && rs[i].Err? && r.error == rs[i].error && (forall j :: 0 <= j < i ==> rs[j].Ok?))
  {
    if k > 0 {
      AllOkFacts(rs, k - 1);
    }
  }

  /** Once a failure is met, later results change nothing. */
  lemma {:induction false} AllOkStaysFailed<T>(rs: seq<Result<T>>, k: nat, m: nat)
    requires k <= m <= |rs| && AllOk(rs, k).Err?
    ensures AllOk(rs, m) == AllOk(rs, k)
    decreases m - k
  {
    if k < m {
      AllOkStaysFailed(rs, k, m - 1);
    }
  }

  /** One step of a loop that stops at the first failure. */
  lemma AllOkStep<T>(rs: seq<Result<T>>, i: nat, results: seq<T>, r: Result<T>)
    requires i < |rs| && AllOk(rs, i) == Ok(results) && r == rs[i]
    ensures r.Ok? ==> AllOk(rs, i + 1) == Ok(results + [r.value])
    ensures r.Err? ==> AllOk(rs, |rs|) == Err(r.error)
  {
    if r.Err? {
      AllOkStaysFailed(rs, i + 1, |rs|);
    }
  }

  /** `[f(x) for x in s]`. */
  function MapSeq<A, B>(s: seq<A>, f: A -> B): (r: seq<B>)
    ensures |r| == |s|
  {
    if s == [] then [] else MapSeq(s[..|s| - 1], f) + [f(s[|s| - 1])]
  }

  lemma {:induction false} MapSeqAt<A, B>(s: seq<A>, f: A -> B, i: int)
    requires 0 <= i < |s|
    ensures MapSeq(s, f)[i] == f(s[i])
    decreases |s|
  {
    if i < |s| - 1 {
      MapSeqAt(s[..|s| - 1], f, i);
    }
  }
}
