/**
 Shared vocabulary for the site-script models: the optional and failing
 values the scripts produce, and counting of flags in a sequence (used for
 "exactly one panel is active" and "at most one answer is open").
 */
module Common {

  /** A value that may be absent: an unset data attribute or form field. */
  datatype Option<+T> = None | Some(value: T) {

    /** The value, or `default` when absent (JavaScript's `x || default`). */
    function GetOr(default: T): T {
      match this
      case Some(v) => v
      case None => default
    }
  }

  /** The outcome of a computation that may throw. */
  datatype Result<+R, +E> = Success(value: R) | Failure(error: E)

  function Max(a: int, b: int): int {
    if a < b then b else a
  }

  /** Number of `true` entries in `s`. */
  function CountTrue(s: seq<bool>): (n: nat)
    ensures n <= |s|
    ensures n == 0 <==> forall j :: 0 <= j < |s| ==> !s[j]
  {
    if |s| == 0 then 0 else (if s[0] then 1 else 0) + CountTrue(s[1..])
  }

  /** When no entry other than index `k` is set, the count is 1 or 0
      according to entry `k` alone. */
  lemma {:induction false} CountTrueSingle(s: seq<bool>, k: int)
    requires forall j :: 0 <= j < |s| && j != k ==> !s[j]
    ensures CountTrue(s) == (if 0 <= k < |s| && s[k] then 1 else 0)
  {
    if |s| > 0 {
      var t := s[1..];
      forall j | 0 <= j < |t| && j != k - 1
        ensures !t[j]
      {
        assert t[j] == s[j + 1];
      }
      CountTrueSingle(t, k - 1);
      if 0 <= k - 1 < |t| {
        assert t[k - 1] == s[k];
      }
    }
  }

  /** When exactly the entries below `c` are set, the count is `c` clipped
      to the length of `s`. */
  lemma {:induction false} CountTruePrefix(s: seq<bool>, c: int)
    requires forall j :: 0 <= j < |s| ==> (s[j] <==> j < c)
    ensures CountTrue(s) == (if c <= 0 then 0 else if c >= |s| then |s| else c)
  {
    if |s| > 0 {
      var t := s[1..];
      forall j | 0 <= j < |t|
        ensures t[j] <==> j < c - 1
      {
        assert t[j] == s[j + 1];
      }
      CountTruePrefix(t, c - 1);
    }
  }
}
