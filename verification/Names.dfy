/** Directory entry names: C strings cut at DIRSIZ bytes, compared by `strncmp` and
    stored by `strncpy`. */
module Names {
  import opened Words

  const DIRSIZ: nat := 14

  /** What a name stands for: its bytes before the first NUL, DIRSIZ of them at most. */
  function Cut(s: seq<byte>, n: nat): (r: seq<byte>)
    ensures |r| <= n && |r| <= |s| && r == s[..|r|] && (forall i :: 0 <= i < |r| ==> r[i] != 0)
    ensures |r| == n || |r| == |s| || s[|r|] == 0
  {
    if n == 0 || s == [] || s[0] == 0 then [] else [s[0]] + Cut(s[1..], n - 1)
  }

  /** Bytes that can be read up to a NUL or up to `n` of them. */
  predicate Terminated(s: seq<byte>, n: nat) {
    |s| >= n || |Cut(s, n)| < |s|
  }

  /** The same name however long the bytes after it. */
  lemma CutPoint(s: seq<byte>, n: nat, k: nat)
    requires k <= |s| && k <= n && (forall i :: 0 <= i < k ==> s[i] != 0)
    requires k == n || (k < |s| && s[k] == 0)
    ensures Cut(s, n) == s[..k]
  {
    CutReaches(s, n, k);
  }

  /** The cut goes past every byte before the first NUL. */
  lemma {:induction false} CutReaches(s: seq<byte>, n: nat, k: nat)
    requires k <= |s| && k <= n && forall i :: 0 <= i < k ==> s[i] != 0
    ensures |Cut(s, n)| >= k
  {
    if k > 0 {
      CutReaches(s[1..], n - 1, k - 1);
    }
  }

  /** `strncmp`: zero exactly for the same name, otherwise the difference of the first bytes that differ. */
  method Strncmp(p: seq<byte>, q: seq<byte>, n: nat) returns (r: int)
    requires Terminated(p, n) && Terminated(q, n)
    ensures r == 0 <==> Cut(p, n) == Cut(q, n)
    ensures r != 0 ==> exists k :: 0 <= k < |p| && k < |q| && p[..k] == q[..k] && r == p[k] as int - q[k] as int
  {
    var k := 0;
    while k < n && p[k] != 0 && p[k] == q[k]
      invariant 0 <= k <= n && k <= |p| && k <= |q| && p[..k] == q[..k]
      invariant forall i :: 0 <= i < k ==> p[i] != 0
      invariant k < n ==> k < |p| && k < |q|
      decreases n - k
    {
      MoreToRead(p, n, k + 1);
      assert q[..k + 1] == p[..k + 1];
      assert forall i :: 0 <= i < k + 1 ==> q[i] == q[..k + 1][i];
      MoreToRead(q, n, k + 1);
      k := k + 1;
    }
    assert forall i :: 0 <= i < k ==> q[i] == q[..k][i];
    if k == n {
      CutPoint(p, n, k);
      CutPoint(q, n, k);
      return 0;
    }
    if p[k] == q[k] {
      CutPoint(p, n, k);
      CutPoint(q, n, k);
    } else {
      CutDiffers(p, q, n, k);
    }
    return p[k] as int - q[k] as int;
  }

  lemma MoreToRead(s: seq<byte>, n: nat, k: nat)
    requires Terminated(s, n) && k <= |s| && (forall i :: 0 <= i < k ==> s[i] != 0)
    ensures k < n ==> k < |s|
  {
    if k < n {
      CutReaches(s, n, k);
    }
  }

  lemma CutDiffers(p: seq<byte>, q: seq<byte>, n: nat, k: nat)
    requires k < n && k < |p| && k < |q| && p[..k] == q[..k] && p[k] != q[k]
    requires forall i :: 0 <= i < k ==> p[i] != 0
    ensures Cut(p, n) != Cut(q, n)
  {
    assert forall i :: 0 <= i < k ==> q[i] == q[..k][i];
    if p[k] == 0 {
      CutPoint(p, n, k);
      CutLonger(q, n, k);
    } else {
      CutLonger(p, n, k);
      assert Cut(p, n)[k] == p[k];
    }
  }

  lemma CutLonger(s: seq<byte>, n: nat, k: nat)
    requires k < n && k < |s| && forall i :: 0 <= i <= k ==> s[i] != 0
    ensures |Cut(s, n)| > k
  {
    CutReaches(s, n, k + 1);
  }

  /** `strncpy`: the name, then NULs up to `n`. */
  method Strncpy(t: seq<byte>, n: nat) returns (s: seq<byte>)
    requires Terminated(t, n)
    ensures s == Cut(t, n) + Zeros(n - |Cut(t, n)|) && |s| == n && Cut(s, n) == Cut(t, n)
  {
    s := [];
    var k := 0;
    while k < n && t[k] != 0
      invariant 0 <= k <= n && k <= |t| && s == t[..k] && (forall i :: 0 <= i < k ==> t[i] != 0)
      invariant k < n ==> k < |t|
      decreases n - k
    {
      MoreToRead(t, n, k + 1);
      s := s + [t[k]];
      k := k + 1;
    }
    CutPoint(t, n, k);
    ghost var name := s;
    while |s| < n
      invariant |name| <= |s| <= n && s == name + Zeros(|s| - |name|)
      decreases n - |s|
    {
      s := s + [0];
    }
    CutPoint(s, n, k);
  }
}
