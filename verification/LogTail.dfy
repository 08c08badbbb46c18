/** Where the last n complete lines of a log file begin. */
module LogTail {
  import opened Bytes

  const INT64_MAX := 0x7FFF_FFFF_FFFF_FFFF
  const INT64_MIN := -0x8000_0000_0000_0000

  /** int64 addition of one. */
  function Increment(n: int): int {
    if n == INT64_MAX then INT64_MIN else n + 1
  }

  /** Walking back from `k`, the position just after the newline that `n` further newlines follow. */
  ghost function WalkBack(s: seq<byte>, k: nat, n: nat): (r: nat)
    requires k <= |s|
    ensures r <= k
  {
    if k == 0 then 0
    else if s[k - 1] != NEWLINE then WalkBack(s, k - 1, n)
    else if n == 0 then k
    else WalkBack(s, k - 1, n - 1)
  }

  ghost function TailStart(s: seq<byte>, n: int): (r: nat)
    ensures r <= |s|
  {
    if n <= 0 then 0 else WalkBack(s, |s|, n)
  }

  ghost predicate Boundary(s: seq<byte>, r: nat) {
    r <= |s| && (r == 0 || s[r - 1] == NEWLINE)
  }

  /** `r` is a line boundary after which exactly min(n, all) complete lines remain. */
  ghost predicate KeepsLines(s: seq<byte>, n: nat, r: nat) {
    Boundary(s, r) && Count(s[r..], NEWLINE) == Min(n, Count(s, NEWLINE))
  }

  lemma CountLast(s: seq<byte>, r: nat, k: nat)
    requires r < k <= |s|
    ensures Count(s[r..k], NEWLINE) == Count(s[r..k - 1], NEWLINE) + if s[k - 1] == NEWLINE then 1 else 0
  {
    assert s[r..k][..k - r - 1] == s[r..k - 1];
  }

  lemma {:induction false} WalkBackKeepsLines(s: seq<byte>, k: nat, n: nat)
    requires k <= |s|
    ensures var r := WalkBack(s, k, n);
      Boundary(s, r) && Count(s[r..k], NEWLINE) == Min(n, Count(s[0..k], NEWLINE))
  {
    if k > 0 {
      CountLast(s, 0, k);
      if s[k - 1] != NEWLINE {
        WalkBackKeepsLines(s, k - 1, n);
        var r := WalkBack(s, k - 1, n);
        CountLast(s, r, k);
      } else if n > 0 {
        WalkBackKeepsLines(s, k - 1, n - 1);
        var r := WalkBack(s, k - 1, n - 1);
        CountLast(s, r, k);
      }
    }
  }

  /** The tail is the boundary that keeps min(n, all) complete lines, and the only one. */
  lemma TailStartMeaning(s: seq<byte>, n: nat, r: nat)
    requires n > 0
    ensures r == TailStart(s, n) <==> KeepsLines(s, n, r)
  {
    var q := TailStart(s, n);
    WalkBackKeepsLines(s, |s|, n);
    assert s[q..|s|] == s[q..] && s[0..|s|] == s;
    if KeepsLines(s, n, r) && r != q {
      MoreLines(s, if r < q then r else q, if r < q then q else r);
    }
  }

  lemma MoreLines(s: seq<byte>, lo: nat, hi: nat)
    requires lo < hi && Boundary(s, hi)
    ensures Count(s[lo..], NEWLINE) > Count(s[hi..], NEWLINE)
  {
    CountLast(s, lo, hi);
    CountAppend(s[lo..hi], s[hi..], NEWLINE);
    assert s[lo..] == s[lo..hi] + s[hi..];
  }

  /**
   The block-wise backward scan: for every file, every n and every block size it finds the offset where
   the last n complete lines begin.
   */
  method FindTailStart(s: seq<byte>, n: int, block: nat) returns (r: nat)
    requires block >= 1
    requires |s| <= INT64_MAX && INT64_MIN <= n <= INT64_MAX
    ensures r == TailStart(s, n)
    ensures n > 0 ==> KeepsLines(s, n, r)
    ensures n <= 0 ==> r == 0
  {
    if n <= 0 {
      return 0;
    }
    TailStartMeaning(s, n, TailStart(s, n));
    var wanted, seen, offset := Increment(n), 0, |s|;
    while offset > 0
      invariant 0 <= offset <= |s|
      invariant 0 <= seen <= n && seen <= |s| - offset
      invariant TailStart(s, n) == WalkBack(s, offset, n - seen)
    {
      var start := offset - Min(block, offset);
      var chunk := s[start..offset];
      var i := |chunk|;
      while i > 0
        invariant 0 <= i <= |chunk|
        invariant 0 <= seen <= n && seen <= |s| - start - i
        invariant TailStart(s, n) == WalkBack(s, start + i, n - seen)
      {
        i := i - 1;
        if chunk[i] == NEWLINE {
          seen := seen + 1;
          if seen == wanted {
            return start + i + 1;
          }
        }
      }
      offset := start;
    }
    return 0;
  }
}
