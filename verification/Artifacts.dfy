/** Names in the content-addressed store: storage keys, temporary names and descriptors. */
module Artifacts {
  import Decimals
  import Utf8

  type Byte = Utf8.Byte

  type Bytes = seq<Byte>

  /** A digest function as the store uses it: 64 lower-case hexadecimal digits for any bytes. */
  type Digest = Bytes -> string

  predicate HexDigit(c: char) { '0' <= c <= '9' || 'a' <= c <= 'f' }

  predicate IsSha256(s: string) { |s| == 64 && forall i :: 0 <= i < |s| ==> HexDigit(s[i]) }

  ghost predicate Sha(hash: Digest) { forall b: Bytes :: IsSha256(hash(b)) }

  /** Two byte strings with one digest. */
  predicate Collide(hash: Digest, a: Bytes, b: Bytes) { a != b && hash(a) == hash(b) }

  // ---------------------------------------------------------------- paths

  function Shard(sha: string): string
    requires |sha| >= 4
  {
    "sha256/" + sha[..2] + "/" + sha[2..4] + "/"
  }

  function StorageKey(sha: string): string
    requires |sha| >= 4
  {
    Shard(sha) + sha + ".bin"
  }

  function TempKey(sha: string, pid: nat, sequence: nat): string
    requires |sha| >= 4
  {
    Shard(sha) + "." + sha + "." + Decimals.Decimal(pid) + "." + Decimals.Decimal(sequence) + ".tmp"
  }

  /** A temporary name is never an artifact's name. */
  lemma {:induction false} TempIsNotKey(sha: string, pid: nat, sequence: nat, other: string)
    requires |sha| >= 4 && |other| >= 4
    ensures TempKey(sha, pid, sequence) != StorageKey(other)
  {
    var t, k := TempKey(sha, pid, sequence), StorageKey(other);
    assert t[|t| - 1] == ".tmp"[3] == 'p';
    assert k[|k| - 1] == ".bin"[3] == 'n';
  }

  lemma {:induction false} KeyInjective(a: string, b: string)
    requires |a| == |b| == 64 && StorageKey(a) == StorageKey(b)
    ensures a == b
  {
    var p, q := Shard(a), Shard(b);
    assert |p| == |q| == 13;
    assert StorageKey(a)[13..77] == a && StorageKey(b)[13..77] == b;
  }

  /** Two strings of the form digits, '.', rest agree piece by piece. */
  lemma {:induction false} SplitAtDot(a: string, b: string, x: string, y: string)
    requires a + "." + x == b + "." + y
    requires (forall i :: 0 <= i < |a| ==> a[i] != '.') && (forall i :: 0 <= i < |b| ==> b[i] != '.')
    ensures a == b && x == y
  {
    var s, t := a + "." + x, b + "." + y;
    assert s[|a|] == '.' && t[|b|] == '.';
    assert forall i :: 0 <= i < |a| ==> s[i] == a[i];
    assert forall i :: 0 <= i < |b| ==> t[i] == b[i];
    assert |a| == |b|;
    assert s[..|a|] == a && t[..|b|] == b;
    assert s[|a| + 1..] == x && t[|b| + 1..] == y;
  }

  lemma {:induction false} NoDot(n: nat)
    ensures forall i :: 0 <= i < |Decimals.Decimal(n)| ==> Decimals.Decimal(n)[i] != '.'
  {
  }

  /** Temporary names of different writers differ, even for the same bytes. */
  lemma {:induction false} TempInjective(a: string, b: string, p: nat, q: nat, m: nat, n: nat)
    requires |a| == |b| == 64 && TempKey(a, p, m) == TempKey(b, q, n)
    ensures p == q && m == n
  {
    var dp, dq, dm, dn := Decimals.Decimal(p), Decimals.Decimal(q), Decimals.Decimal(m), Decimals.Decimal(n);
    NoDot(p);
    NoDot(q);
    NoDot(m);
    NoDot(n);
    hide Decimals.Decimal;
    var x, y := TempKey(a, p, m), TempKey(b, q, n);
    assert |Shard(a)| == |Shard(b)| == 13;
    assert x == Shard(a) + "." + a + "." + (dp + "." + (dm + ".tmp"));
    assert y == Shard(b) + "." + b + "." + (dq + "." + (dn + ".tmp"));
    assert x[79..] == dp + "." + (dm + ".tmp") && y[79..] == dq + "." + (dn + ".tmp");
    SplitAtDot(dp, dq, dm + ".tmp", dn + ".tmp");
    assert dm + "." + "tmp" == dm + ".tmp" && dn + "." + "tmp" == dn + ".tmp";
    SplitAtDot(dm, dn, "tmp", "tmp");
    Decimals.DecimalInjective(p, q);
    Decimals.DecimalInjective(m, n);
  }

  // ---------------------------------------------------------------- splitting

  /** The pieces of a string between separators. */
  function Split(s: string, c: char): (r: seq<string>)
    ensures |r| > 0
  {
    if s == [] then [""]
    else
      var rest := Split(s[1..], c);
      if s[0] == c then [""] + rest else [[s[0]] + rest[0]] + rest[1..]
  }

  function Join(parts: seq<string>, c: char): string
    requires |parts| > 0
  {
    if |parts| == 1 then parts[0] else parts[0] + [c] + Join(parts[1..], c)
  }

  predicate Free(s: string, c: char) { forall i :: 0 <= i < |s| ==> s[i] != c }

  lemma {:induction false} SplitFree(s: string, c: char)
    requires Free(s, c)
    ensures Split(s, c) == [s]
  {
    if s != [] {
      SplitFree(s[1..], c);
      assert s == [s[0]] + s[1..];
    }
  }

  lemma {:induction false} SplitOnce(a: string, c: char, rest: string)
    requires Free(a, c)
    ensures Split(a + [c] + rest, c) == [a] + Split(rest, c)
  {
    var s := a + [c] + rest;
    if a == [] {
      assert s[1..] == rest && s[0] == c;
    } else {
      assert s[1..] == a[1..] + [c] + rest && s[0] == a[0];
      SplitOnce(a[1..], c, rest);
      assert [a[0]] + a[1..] == a;
    }
  }

  /** Joining the pieces gives the string back. */
  lemma {:induction false} JoinSplit(s: string, c: char)
    ensures Join(Split(s, c), c) == s
  {
    if s != [] {
      JoinSplit(s[1..], c);
      var rest := Split(s[1..], c);
      if s[0] == c {
        assert ([""] + rest)[1..] == rest;
      } else {
        var r := [[s[0]] + rest[0]] + rest[1..];
        assert r[1..] == rest[1..];
        if |rest| > 1 {
          assert Join(r, c) == [s[0]] + rest[0] + [c] + Join(rest[1..], c);
          assert Join(rest, c) == rest[0] + [c] + Join(rest[1..], c);
        }
      }
      assert s == [s[0]] + s[1..];
    }
  }

  // ---------------------------------------------------------------- validation

  predicate IdChar(c: char) {
    'a' <= c <= 'z' || 'A' <= c <= 'Z' || '0' <= c <= '9' || c == '_' || c == '-' || c == '.'
  }

  predicate ValidName(s: string) { 0 < |s| <= 128 && forall i :: 0 <= i < |s| ==> IdChar(s[i]) }

  predicate ValidMediaType(s: string) {
    && |s| <= 128
    && (forall i :: 0 <= i < |s| ==> ' ' <= s[i] <= '~')
    && (exists i :: 0 <= i < |s| && s[i] != ' ')
  }

  predicate ValidMetadata(namespace: string, mediaType: string, version: nat) {
    ValidName(namespace) && ValidMediaType(mediaType) && version > 0
  }

  datatype Descriptor = Descriptor(
    artifactId: string,
    sha256: string,
    storageKey: string,
    mediaType: string,
    byteSize: nat,
    version: nat)

  function ArtifactId(namespace: string, sha: string): string { "artifact:" + namespace + ":" + sha }

  /** validate_descriptor */
  predicate ValidDescriptor(d: Descriptor) {
    var parts := Split(d.artifactId, ':');
    && |parts| == 3 && parts[0] == "artifact"
    && ValidMetadata(parts[1], d.mediaType, d.version)
    && IsSha256(d.sha256) && parts[2] == d.sha256
    && d.storageKey == StorageKey(d.sha256)
  }

  /** validate_storage_key */
  predicate SafeKey(key: string) {
    && Free(key, ':') && Free(key, '\\') && (key == [] || key[0] != '/')
    && var parts := Split(key, '/');
       forall i :: 0 <= i < |parts| ==> parts[i] != "" && parts[i] != "." && parts[i] != ".."
  }

  lemma {:induction false} ArtifactIdSplits(namespace: string, sha: string)
    requires ValidName(namespace) && IsSha256(sha)
    ensures Split(ArtifactId(namespace, sha), ':') == ["artifact", namespace, sha]
  {
    assert ArtifactId(namespace, sha) == "artifact" + [':'] + (namespace + [':'] + sha);
    SplitOnce("artifact", ':', namespace + [':'] + sha);
    SplitOnce(namespace, ':', sha);
    SplitFree(sha, ':');
  }

  /** A descriptor is valid exactly when it is the one put_bytes writes for some valid metadata
      and some digest. */
  lemma {:induction false} DescriptorShape(d: Descriptor)
    ensures ValidDescriptor(d)
      <==> exists namespace :: ValidMetadata(namespace, d.mediaType, d.version) && IsSha256(d.sha256)
             && d.artifactId == ArtifactId(namespace, d.sha256) && d.storageKey == StorageKey(d.sha256)
  {
    var parts := Split(d.artifactId, ':');
    if ValidDescriptor(d) {
      JoinSplit(d.artifactId, ':');
      assert parts[1..][1..] == [parts[2]];
      assert Join(parts[1..], ':') == parts[1] + [':'] + parts[2];
      assert Join(parts, ':') == "artifact" + [':'] + (parts[1] + [':'] + d.sha256);
      assert d.artifactId == ArtifactId(parts[1], d.sha256);
    }
    forall namespace | ValidMetadata(namespace, d.mediaType, d.version) && IsSha256(d.sha256)
        && d.artifactId == ArtifactId(namespace, d.sha256)
      ensures parts == ["artifact", namespace, d.sha256]
    {
      ArtifactIdSplits(namespace, d.sha256);
    }
  }

  /** The storage key of a digest is a safe relative path of four ordinary parts. */
  lemma {:induction false} StorageKeyIsSafe(sha: string)
    requires IsSha256(sha)
    ensures SafeKey(StorageKey(sha))
    ensures Split(StorageKey(sha), '/') == ["sha256", sha[..2], sha[2..4], sha + ".bin"]
  {
    var a, b, file := sha[..2], sha[2..4], sha + ".bin";
    assert StorageKey(sha) == "sha256" + ['/'] + (a + ['/'] + (b + ['/'] + file));
    assert Free("sha256", '/') && Free(a, '/') && Free(b, '/') && Free(file, '/');
    SplitFree(file, '/');
    SplitOnce(b, '/', file);
    SplitOnce(a, '/', b + ['/'] + file);
    SplitOnce("sha256", '/', a + ['/'] + (b + ['/'] + file));
    assert Split(StorageKey(sha), '/') == ["sha256", a, b, file];
    assert |a| == 2 && a[0] != '.' && |b| == 2 && b[0] != '.' && |file| == 68;
  }
}
