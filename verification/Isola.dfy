/** Resource naming and the label round trip of internal/backend/isola.go, over bytes. */
module Isola {
  import opened Common

  type Bytes = seq<byte>

  /** "pw-" */
  const PREFIX: Bytes := [112, 119, 45]
  const MAX_NAME_LEN := 47
  /** How many digest bytes a hashed name shows: 44 hex digits after the prefix. */
  const SHOWN := 22

  /** Lower-case letters, digits, '-' and '.'. */
  predicate IsNameByte(b: byte) {
    97 <= b <= 122 || 48 <= b <= 57 || b == 45 || b == 46
  }

  /** Only the character set is checked. A rune outside ASCII is made of bytes outside this set. */
  predicate IsDns1123(s: Bytes) {
    forall b <- s :: IsNameByte(b)
  }

  function HexDigit(n: int): (d: byte)
    requires 0 <= n < 16
    ensures IsNameByte(d)
  {
    if n < 10 then (48 + n) as byte else (87 + n) as byte
  }

  /** fmt's %x: two lower-case digits a byte. */
  function Hex(s: Bytes): (h: Bytes)
    ensures |h| == 2 * |s|
    ensures IsDns1123(h)
  {
    if s == [] then []
    else [HexDigit(s[0] as int / 16), HexDigit(s[0] as int % 16)] + Hex(s[1..])
  }

  /** SHA-256 as a parameter: any function to 32 bytes. */
  ghost predicate IsDigest(sha: Bytes -> Bytes) {
    forall x :: |sha(x)| == 32
  }

  predicate IsVerbatim(id: Bytes) {
    |PREFIX + id| <= MAX_NAME_LEN && IsDns1123(id)
  }

  function IsolaName(sha: Bytes -> Bytes, id: Bytes): Bytes
    requires IsDigest(sha)
  {
    if IsVerbatim(id) then PREFIX + id else (PREFIX + Hex(sha(id)))[..MAX_NAME_LEN]
  }

  /** Every name has at most 47 bytes, all of them allowed in a resource name. */
  lemma NameIsBounded(sha: Bytes -> Bytes, id: Bytes)
    requires IsDigest(sha)
    ensures |IsolaName(sha, id)| <= MAX_NAME_LEN
    ensures IsDns1123(IsolaName(sha, id)) && PREFIX <= IsolaName(sha, id)
    ensures !IsVerbatim(id) ==> |IsolaName(sha, id)| == MAX_NAME_LEN
  {
    var full := PREFIX + Hex(sha(id));
    forall b | b in full[..MAX_NAME_LEN] ensures IsNameByte(b) {
      assert b in full;
    }
  }

  /** The name in plain terms: the id itself if it is short and plain, and else 44 digits of its digest. */
  lemma NameExactly(sha: Bytes -> Bytes, id: Bytes)
    requires IsDigest(sha)
    ensures if |id| <= 44 && forall b <- id :: 97 <= b <= 122 || 48 <= b <= 57 || b == 45 || b == 46
            then IsolaName(sha, id) == [112, 119, 45] + id
            else |IsolaName(sha, id)| == 47 && IsolaName(sha, id)[..3] == [112, 119, 45]
                 && forall k :: 0 <= k < 22 ==>
                      && DigitValue(IsolaName(sha, id)[3 + 2 * k]) == sha(id)[k] as int / 16
                      && DigitValue(IsolaName(sha, id)[4 + 2 * k]) == sha(id)[k] as int % 16
  {
    assert |PREFIX + id| == 3 + |id|;
    if !IsVerbatim(id) {
      HashedName(sha, id);
      var shown := sha(id)[..SHOWN];
      forall k | 0 <= k < 22
        ensures DigitValue(IsolaName(sha, id)[3 + 2 * k]) == sha(id)[k] as int / 16
        ensures DigitValue(IsolaName(sha, id)[4 + 2 * k]) == sha(id)[k] as int % 16
      {
        HexAt(shown, k);
      }
    }
  }

  /** The value of a lower-case hexadecimal digit. */
  function DigitValue(b: byte): int {
    if 48 <= b <= 57 then b as int - 48 else if 97 <= b <= 102 then b as int - 87 else -1
  }

  /** The high digit of a byte comes first. */
  lemma {:induction false} HexAt(s: Bytes, k: nat)
    requires k < |s|
    ensures DigitValue(Hex(s)[2 * k]) == s[k] as int / 16 && DigitValue(Hex(s)[2 * k + 1]) == s[k] as int % 16
    decreases |s|
  {
    if k > 0 { HexAt(s[1..], k - 1); }
  }

  lemma DigitInjective(m: int, n: int)
    requires 0 <= m < 16 && 0 <= n < 16 && HexDigit(m) == HexDigit(n)
    ensures m == n
  {
  }

  lemma {:induction false} HexInjective(x: Bytes, y: Bytes)
    requires Hex(x) == Hex(y)
    ensures x == y
  {
    assert |x| == |y|;
    if x != [] {
      var a, b := Hex(x), Hex(y);
      assert a[0] == b[0] && a[1] == b[1];
      DigitInjective(x[0] as int / 16, y[0] as int / 16);
      DigitInjective(x[0] as int % 16, y[0] as int % 16);
      assert a[2..] == Hex(x[1..]) && b[2..] == Hex(y[1..]);
      HexInjective(x[1..], y[1..]);
      assert x == [x[0]] + x[1..] && y == [y[0]] + y[1..];
    }
  }

  lemma {:induction false} HexPrefix(x: Bytes, n: nat)
    requires n <= |x|
    ensures Hex(x)[..2 * n] == Hex(x[..n])
  {
    if n > 0 {
      HexPrefix(x[1..], n - 1);
      assert x[..n][1..] == x[1..][..n - 1];
      assert Hex(x)[2..] == Hex(x[1..]);
      assert Hex(x)[..2 * n] == Hex(x)[..2] + Hex(x)[2..][..2 * (n - 1)];
    }
  }

  /** A hashed name shows the hex form of the first 22 digest bytes. */
  lemma HashedName(sha: Bytes -> Bytes, id: Bytes)
    requires IsDigest(sha) && !IsVerbatim(id)
    ensures IsolaName(sha, id) == PREFIX + Hex(sha(id)[..SHOWN])
  {
    HexPrefix(sha(id), SHOWN);
    assert (PREFIX + Hex(sha(id)))[..MAX_NAME_LEN] == PREFIX + Hex(sha(id))[..2 * SHOWN];
  }

  /** The id `b` is hashed, and `a` is literally what its name shows of the digest. */
  predicate Mimics(sha: Bytes -> Bytes, a: Bytes, b: Bytes)
    requires |sha(b)| == 32
  {
    IsVerbatim(a) && !IsVerbatim(b) && a == Hex(sha(b)[..SHOWN])
  }

  lemma TailsAgree(x: Bytes, y: Bytes)
    ensures PREFIX + x == PREFIX + y <==> x == y
  {
    assert (PREFIX + x)[3..] == x && (PREFIX + y)[3..] == y;
  }

  /**
   Two ids share a name if and only if they are equal, are both hashed to digests that agree in their
   first 22 bytes, or one of them is literally the 44 digits that the other's name shows.
   */
  lemma CollisionsExactly(sha: Bytes -> Bytes, a: Bytes, b: Bytes)
    requires IsDigest(sha)
    ensures IsolaName(sha, a) == IsolaName(sha, b)
      <==> || a == b
           || (!IsVerbatim(a) && !IsVerbatim(b) && sha(a)[..SHOWN] == sha(b)[..SHOWN])
           || Mimics(sha, a, b)
           || Mimics(sha, b, a)
  {
    var shownA := if IsVerbatim(a) then a else Hex(sha(a)[..SHOWN]);
    var shownB := if IsVerbatim(b) then b else Hex(sha(b)[..SHOWN]);
    if !IsVerbatim(a) { HashedName(sha, a); }
    if !IsVerbatim(b) { HashedName(sha, b); }
    TailsAgree(shownA, shownB);
    if !IsVerbatim(a) && !IsVerbatim(b) && shownA == shownB {
      HexInjective(sha(a)[..SHOWN], sha(b)[..SHOWN]);
    }
  }

  // ---------------------------------------------------------------- the label round trip

  /** The Sandbox resources by name, each with the playwright-id label it was built with. */
  type Cluster = map<Bytes, Bytes>

  /** The get-or-create of Ensure: an existing resource of that name is used as it is. */
  function EnsureCr(sha: Bytes -> Bytes, cluster: Cluster, id: Bytes): Cluster
    requires IsDigest(sha)
  {
    var name := IsolaName(sha, id);
    if name in cluster then cluster else cluster[name := id]
  }

  function EnsureAll(sha: Bytes -> Bytes, ids: seq<Bytes>): Cluster
    requires IsDigest(sha)
    decreases |ids|
  {
    if ids == [] then map[] else EnsureCr(sha, EnsureAll(sha, ids[..|ids| - 1]), ids[|ids| - 1])
  }

  /** What List makes of the labels of the listed resources: it skips empty ones. */
  function NonEmpty(labels: seq<Bytes>): (ids: seq<Bytes>)
    ensures forall x :: x in ids <==> x in labels && x != []
    decreases |labels|
  {
    if labels == [] then []
    else
      var last := labels[|labels| - 1];
      assert labels == labels[..|labels| - 1] + [last];
      NonEmpty(labels[..|labels| - 1]) + (if last != [] then [last] else [])
  }

  /** The loop of List. */
  method ReadLabels(labels: seq<Bytes>) returns (ids: seq<Bytes>)
    ensures ids == NonEmpty(labels)
  {
    ids := [];
    for k := 0 to |labels|
      invariant ids == NonEmpty(labels[..k])
    {
      assert labels[..k + 1][..k] == labels[..k];
      if labels[k] != [] {
        ids := ids + [labels[k]];
      }
    }
    assert labels[..|labels|] == labels;
  }

  /** The k-th id is the first of its name. */
  predicate IsFirstOfName(sha: Bytes -> Bytes, ids: seq<Bytes>, k: nat)
    requires IsDigest(sha)
  {
    k < |ids| && forall j :: 0 <= j < k ==> IsolaName(sha, ids[j]) != IsolaName(sha, ids[k])
  }

  lemma {:induction false} EveryIdHasAResource(sha: Bytes -> Bytes, ids: seq<Bytes>, j: nat)
    requires IsDigest(sha) && j < |ids|
    ensures IsolaName(sha, ids[j]) in EnsureAll(sha, ids)
    decreases |ids|
  {
    if j < |ids| - 1 { EveryIdHasAResource(sha, ids[..|ids| - 1], j); }
  }

  lemma {:induction false} OwnerIsFirst(sha: Bytes -> Bytes, ids: seq<Bytes>, name: Bytes) returns (k: nat)
    requires IsDigest(sha) && name in EnsureAll(sha, ids)
    ensures IsFirstOfName(sha, ids, k) && IsolaName(sha, ids[k]) == name && EnsureAll(sha, ids)[name] == ids[k]
    decreases |ids|
  {
    var front := ids[..|ids| - 1];
    if name in EnsureAll(sha, front) {
      k := OwnerIsFirst(sha, front, name);
      assert forall j :: 0 <= j <= k ==> ids[j] == front[j];
    } else {
      k := |ids| - 1;
      forall j | 0 <= j < k ensures IsolaName(sha, ids[j]) != name {
        EveryIdHasAResource(sha, front, j);
        assert ids[j] == front[j];
      }
    }
  }

  /**
   After Ensure has run for some ids, the labels hold exactly those ids that came first under their name,
   unhashed.
   */
  lemma LabelsRoundTrip(sha: Bytes -> Bytes, ids: seq<Bytes>, x: Bytes)
    requires IsDigest(sha)
    ensures x in EnsureAll(sha, ids).Values <==> exists k :: 0 <= k < |ids| && ids[k] == x && IsFirstOfName(sha, ids, k)
  {
    var m := EnsureAll(sha, ids);
    if x in m.Values {
      var name :| name in m && m[name] == x;
      var k := OwnerIsFirst(sha, ids, name);
    }
    forall k | 0 <= k < |ids| && ids[k] == x && IsFirstOfName(sha, ids, k) ensures x in m.Values {
      var name := IsolaName(sha, x);
      EveryIdHasAResource(sha, ids, k);
      var i := OwnerIsFirst(sha, ids, name);
      assert i == k;
      assert m[name] in m.Values;
    }
  }

  /** `names` are the names of all resources of a cluster, each once: the order in which it lists them. */
  predicate Enumerates(names: seq<Bytes>, cluster: Cluster) {
    && (forall n <- names :: n in cluster) && (forall n <- cluster :: n in names)
    && forall i, j :: 0 <= i < j < |names| ==> names[i] != names[j]
  }

  function Labels(names: seq<Bytes>, cluster: Cluster): (labels: seq<Bytes>)
    requires forall n <- names :: n in cluster
    ensures |labels| == |names| && forall k :: 0 <= k < |names| ==> labels[k] == cluster[names[k]]
  {
    seq(|names|, k requires 0 <= k < |names| => cluster[names[k]])
  }

  predicate CollisionFree(sha: Bytes -> Bytes, ids: seq<Bytes>)
    requires IsDigest(sha)
  {
    forall i, j :: 0 <= i < j < |ids| && IsolaName(sha, ids[i]) == IsolaName(sha, ids[j]) ==> ids[i] == ids[j]
  }

  lemma {:induction false} NonEmptyKeepsDistinct(labels: seq<Bytes>)
    requires forall i, j :: 0 <= i < j < |labels| ==> labels[i] != labels[j]
    ensures var ids := NonEmpty(labels); forall i, j :: 0 <= i < j < |ids| ==> ids[i] != ids[j]
    decreases |labels|
  {
    if labels != [] {
      var front, last := labels[..|labels| - 1], labels[|labels| - 1];
      NonEmptyKeepsDistinct(front);
      assert last !in NonEmpty(front);
      assert forall i :: 0 <= i < |NonEmpty(front)| ==> NonEmpty(front)[i] in NonEmpty(front);
    }
  }

  /** Different resources have different labels: each label determines the name it is under. */
  lemma LabelsAreDistinct(sha: Bytes -> Bytes, ids: seq<Bytes>, names: seq<Bytes>)
    requires IsDigest(sha) && Enumerates(names, EnsureAll(sha, ids))
    ensures var labels := Labels(names, EnsureAll(sha, ids));
      forall i, j :: 0 <= i < j < |labels| ==> labels[i] != labels[j]
  {
    var cluster := EnsureAll(sha, ids);
    var labels := Labels(names, cluster);
    forall k | 0 <= k < |labels| ensures IsolaName(sha, labels[k]) == names[k] {
      var o := OwnerIsFirst(sha, ids, names[k]);
    }
    forall i, j | 0 <= i < j < |labels| ensures labels[i] != labels[j] {
      assert IsolaName(sha, labels[i]) != IsolaName(sha, labels[j]);
    }
  }

  /**
   Ensure and then List: in whatever order the resources are listed, an id comes back, once, exactly when it
   is not empty and came first under its name. Without collisions all non-empty ids come back.
   */
  lemma ListedBack(sha: Bytes -> Bytes, ids: seq<Bytes>, names: seq<Bytes>, x: Bytes)
    requires IsDigest(sha) && Enumerates(names, EnsureAll(sha, ids))
    ensures var listed := NonEmpty(Labels(names, EnsureAll(sha, ids)));
      && (x in listed <==> x != [] && exists k :: 0 <= k < |ids| && ids[k] == x && IsFirstOfName(sha, ids, k))
      && (forall i, j :: 0 <= i < j < |listed| ==> listed[i] != listed[j])
      && (CollisionFree(sha, ids) ==> (x in listed <==> x != [] && x in ids))
  {
    var cluster := EnsureAll(sha, ids);
    var labels := Labels(names, cluster);
    LabelsAreDistinct(sha, ids, names);
    NonEmptyKeepsDistinct(labels);
    LabelsRoundTrip(sha, ids, x);
    if x in cluster.Values {
      var n :| n in cluster && cluster[n] == x;
      var k :| 0 <= k < |names| && names[k] == n;
      assert labels[k] == x;
    }
    if CollisionFree(sha, ids) && x in ids { var _ := FirstUnderName(sha, ids, x); }
  }

  /** Without collisions the first occurrence of an id is the first of its name. */
  lemma FirstUnderName(sha: Bytes -> Bytes, ids: seq<Bytes>, x: Bytes) returns (k: nat)
    requires IsDigest(sha) && CollisionFree(sha, ids) && x in ids
    ensures k < |ids| && ids[k] == x && IsFirstOfName(sha, ids, k)
  {
    k := 0;
    while ids[k] != x
      invariant k < |ids| && x !in ids[..k]
      invariant x in ids[k..]
      decreases |ids| - k
    {
      k := k + 1;
    }
  }
}
