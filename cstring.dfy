/**
 * NUL-terminated character buffers and the C library routines the driver
 * applies to them: `strlen`, `strstr`, `memset`, `strcpy` and `strcat` of a
 * single character.
 *
 * A buffer's contents are a `seq<char>`; its C string is the prefix before
 * the first NUL.
 */
module CString {

  datatype Option<T> = None | Some(value: T)

  const NUL: char := '\0'

  /** Size of both driver buffers, `BUF_LEN`. */
  const BUF_LEN: nat := 80

  /** `strlen`: the index of the first NUL. */
  function StrLen(s: seq<char>): (n: nat)
    requires NUL in s
    ensures n < |s| && s[n] == NUL
    ensures NUL !in s[..n]
  {
    if s[0] == NUL then 0
    else
      assert NUL in s[1..] by { var k :| 0 <= k < |s| && s[k] == NUL; assert s[1..][k - 1] == NUL; }
      var m := StrLen(s[1..]);
      assert s[..m + 1] == [s[0]] + s[1..][..m];
      m + 1
  }

  /** The first NUL is unique: any index before which there is no NUL and at which there is one is `strlen`. */
  lemma {:induction false} StrLenUnique(s: seq<char>, n: nat)
    requires n < |s| && s[n] == NUL && NUL !in s[..n]
    ensures StrLen(s) == n
  {
    if n > 0 {
      assert s[0] == s[..n][0];
      assert s[1..][..n - 1] == s[..n][1..];
      StrLenUnique(s[1..], n - 1);
    }
  }

  /** The C string held by a buffer: everything before its first NUL. */
  function CStr(s: seq<char>): (c: seq<char>)
    requires NUL in s
    ensures |c| < |s| && NUL !in c
    ensures s[..|c| + 1] == c + [NUL]
  {
    s[..StrLen(s)]
  }

  /** A buffer of `n` NUL characters, what `memset(buf, 0, n)` leaves. */
  function Zeros(n: nat): (z: seq<char>)
    ensures |z| == n
    ensures forall i :: 0 <= i < n ==> z[i] == NUL
  {
    seq(n, _ => NUL)
  }

  /** A buffer that starts with the C string `t`: its C string is `t`. */
  lemma TerminatedCStr(t: seq<char>, rest: seq<char>)
    requires NUL !in t
    ensures NUL in t + [NUL] + rest
    ensures CStr(t + [NUL] + rest) == t
  {
    var s := t + [NUL] + rest;
    assert s[|t|] == NUL;
    assert s[..|t|] == t;
    StrLenUnique(s, |t|);
  }

  /** `pat` occurs in `s` at index `i`. */
  predicate OccursAt(s: seq<char>, pat: seq<char>, i: nat) {
    i + |pat| <= |s| && s[i..i + |pat|] == pat
  }

  /** `pat` occurs somewhere in `s`. */
  predicate Contains(s: seq<char>, pat: seq<char>) {
    exists i: nat | i <= |s| :: OccursAt(s, pat, i)
  }

  /**
   * The search of `strstr` from index `k` on: the first index at or after
   * `k` where `pat` occurs, or `None` when there is none.
   */
  function FindFrom(s: seq<char>, pat: seq<char>, k: nat): (r: Option<nat>)
    ensures r.Some? ==> k <= r.value && OccursAt(s, pat, r.value)
    ensures r.Some? ==> forall j: nat :: k <= j < r.value ==> !OccursAt(s, pat, j)
    ensures r.None? ==> forall j: nat :: k <= j ==> !OccursAt(s, pat, j)
    decreases |s| - k
  {
    if k + |pat| > |s| then None
    else if s[k..k + |pat|] == pat then Some(k)
    else FindFrom(s, pat, k + 1)
  }

  /** `strstr(s, pat)`: the index of the first occurrence of `pat` in the C string `s`. */
  function StrStr(s: seq<char>, pat: seq<char>): (r: Option<nat>)
    ensures r.Some? <==> Contains(s, pat)
    ensures r.Some? ==> OccursAt(s, pat, r.value) && forall j: nat :: j < r.value ==> !OccursAt(s, pat, j)
  {
    FindFrom(s, pat, 0)
  }

  /**
   * Whether `copy_to_user`/`copy_from_user` of `n` bytes fails: the user
   * memory may be bad (`fault`), but a copy of 0 bytes touches none and
   * always succeeds.
   */
  predicate CopyFails(fault: bool, n: nat) {
    fault && n > 0
  }

  /** `memset(a, 0, a.Length)`. */
  method MemsetZero(a: array<char>)
    modifies a
    ensures a[..] == Zeros(a.Length)
  {
    var i := 0;
    while i < a.Length
      invariant 0 <= i <= a.Length
      invariant forall j :: 0 <= j < i ==> a[j] == NUL
    {
      a[i] := NUL;
      i := i + 1;
    }
  }

  /** `copy_from_user(dst, src, |src|)` that succeeds: `src` is copied to the front of `dst`. */
  method CopyIn(dst: array<char>, src: seq<char>)
    requires |src| <= dst.Length
    modifies dst
    ensures dst[..] == src + old(dst[..])[|src|..]
  {
    var i := 0;
    while i < |src|
      invariant 0 <= i <= |src|
      invariant forall j :: 0 <= j < i ==> dst[j] == src[j]
      invariant forall j :: i <= j < dst.Length ==> dst[j] == old(dst[j])
    {
      dst[i] := src[i];
      i := i + 1;
    }
    assert dst[..|src|] == src;
    assert dst[..] == dst[..|src|] + dst[|src|..];
  }

  /** `strlen(a)`: scans the buffer up to its first NUL. */
  method StrLenOf(a: array<char>) returns (n: nat)
    requires NUL in a[..]
    ensures n == StrLen(a[..])
  {
    n := 0;
    while a[n] != NUL
      invariant n < a.Length
      invariant NUL !in a[..n]
      invariant NUL in a[n..]
      decreases a.Length - n
    {
      assert a[n..] == [a[n]] + a[n + 1..];
      assert a[..n + 1] == a[..n] + [a[n]];
      n := n + 1;
    }
    StrLenUnique(a[..], n);
  }

  /**
   * `strcpy(dst, src)`: the C string of `src` and its NUL are copied to the
   * front of `dst`; the rest of `dst` is left alone.
   */
  method StrCpy(dst: array<char>, src: array<char>)
    requires dst != src
    requires NUL in src[..] && StrLen(src[..]) < dst.Length
    modifies dst
    ensures dst[..] == CStr(src[..]) + [NUL] + old(dst[..])[StrLen(src[..]) + 1..]
  {
    var n := StrLenOf(src);
    var i := 0;
    while i <= n
      invariant 0 <= i <= n + 1
      invariant forall j :: 0 <= j < i ==> dst[j] == src[j]
      invariant forall j :: i <= j < dst.Length ==> dst[j] == old(dst[j])
    {
      dst[i] := src[i];
      i := i + 1;
    }
    assert src[..n + 1] == CStr(src[..]) + [NUL];
    assert dst[..n + 1] == src[..n + 1];
    assert dst[..] == dst[..n + 1] + dst[n + 1..];
  }

  /**
   * `strcat(dst, [c])` for a one-character string: `c` replaces the first
   * NUL and a new NUL follows it, so the C string grows by `c`.
   */
  method StrCatChar(dst: array<char>, c: char)
    requires c != NUL
    requires NUL in dst[..] && StrLen(dst[..]) + 1 < dst.Length
    modifies dst
    ensures dst[..] == old(dst[..])[StrLen(old(dst[..])) := c][StrLen(old(dst[..])) + 1 := NUL]
    ensures NUL in dst[..] && CStr(dst[..]) == old(CStr(dst[..])) + [c]
  {
    var n := StrLenOf(dst);
    dst[n] := c;
    dst[n + 1] := NUL;
    ghost var t := old(CStr(dst[..])) + [c];
    assert dst[..] == t + [NUL] + dst[n + 2..];
    TerminatedCStr(t, dst[n + 2..]);
  }
}
