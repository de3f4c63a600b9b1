/** `RUN_MANIFEST.json`: the digest of every blob, and a digest of the manifest
    itself. Serializing the manifest and hashing are parameters. */
module Manifest {
  import opened Wrappers
  import opened ArtifactStore

  /** A file of the run directory, in the blob tree or elsewhere. */
  datatype File = Blob(key: Key) | Elsewhere(path: string)

  type Tree = map<File, Bytes>

  datatype Artifact = Artifact(sha: string, file: File, size: nat)

  /** `body` is everything but the artifacts and the manifest's own digest. */
  datatype Manifest = Manifest(body: string, artifacts: seq<Artifact>, recorded: Option<string>)

  datatype Reason = Missing | HashMismatch

  datatype Report = Report(ok: bool, hashOk: bool, checked: nat, bad: seq<(Artifact, Reason)>)

  datatype Codec = Codec(hash: Bytes -> string, canon: (string, seq<Artifact>) -> string)

  function Digest(codec: Codec, m: Manifest): string { codec.hash(codec.canon(m.body, m.artifacts)) }

  /** `sorted(blobs.rglob("*"))`: each blob once, nothing else. */
  ghost predicate Lists(listing: seq<File>, tree: Tree) {
    && (forall i, j :: 0 <= i < j < |listing| ==> listing[i] != listing[j])
    && (forall i :: 0 <= i < |listing| ==> listing[i] in tree && listing[i].Blob?)
    && (forall f <- tree :: f.Blob? ==> f in listing)
  }

  function Record(f: File, tree: Tree, codec: Codec): Artifact
    requires f in tree
  {
    Artifact(codec.hash(tree[f]), f, |tree[f]|)
  }

  function Records(listing: seq<File>, tree: Tree, codec: Codec): (r: seq<Artifact>)
    requires forall i :: 0 <= i < |listing| ==> listing[i] in tree
    ensures |r| == |listing| && forall i :: 0 <= i < |listing| ==> r[i] == Record(listing[i], tree, codec)
  {
    seq(|listing|, i requires 0 <= i < |listing| => Record(listing[i], tree, codec))
  }

  function Written(listing: seq<File>, tree: Tree, body: string, codec: Codec): Manifest
    requires forall i :: 0 <= i < |listing| ==> listing[i] in tree
  {
    var artifacts := Records(listing, tree, codec);
    Manifest(body, artifacts, Some(codec.hash(codec.canon(body, artifacts))))
  }

  method WriteManifest(listing: seq<File>, tree: Tree, body: string, codec: Codec) returns (m: Manifest)
    requires Lists(listing, tree)
    ensures m == Written(listing, tree, body, codec)
    ensures |m.artifacts| == |listing| && forall i :: 0 <= i < |listing| ==>
              var a, c := m.artifacts[i], tree[listing[i]];
              a.file == listing[i] && a.sha == codec.hash(c) && a.size == |c|
    ensures m.body == body && m.recorded == Some(codec.hash(codec.canon(body, m.artifacts)))
  {
    var artifacts := [];
    for n := 0 to |listing|
      invariant |artifacts| == n
      invariant forall i :: 0 <= i < n ==> artifacts[i] == Record(listing[i], tree, codec)
    {
      var c := tree[listing[n]];
      artifacts := artifacts + [Artifact(codec.hash(c), listing[n], |c|)];
    }
    assert artifacts == Records(listing, tree, codec);
    m := Manifest(body, artifacts, None);
    m := m.(recorded := Some(Digest(codec, m)));
  }

  /** The file is there with the digest recorded for it. */
  predicate Intact(a: Artifact, tree: Tree, codec: Codec) {
    a.file in tree && codec.hash(tree[a.file]) == a.sha
  }

  function Faults(artifacts: seq<Artifact>, tree: Tree, codec: Codec): seq<(Artifact, Reason)> {
    if artifacts == [] then []
    else
      var a := artifacts[|artifacts| - 1];
      Faults(artifacts[..|artifacts| - 1], tree, codec) +
      (if a.file !in tree then [(a, Missing)]
       else if codec.hash(tree[a.file]) != a.sha then [(a, HashMismatch)] else [])
  }

  /** `None` is a run directory without a manifest. */
  method VerifyManifest(manifest: Option<Manifest>, tree: Tree, codec: Codec) returns (r: Report)
    ensures manifest.None? ==> !r.ok
    ensures manifest.Some? ==>
              && r.hashOk == (manifest.value.recorded == Some(Digest(codec, manifest.value)))
              && r.bad == Faults(manifest.value.artifacts, tree, codec)
              && r.checked == |manifest.value.artifacts|
              && (r.ok <==> Verifies(manifest.value, tree, codec))
              && (r.ok <==>
                    var m := manifest.value;
                    m.recorded == Some(codec.hash(codec.canon(m.body, m.artifacts))) && r.bad == [])
  {
    if manifest.None? {
      return Report(false, false, 0, []);
    }
    var m := manifest.value;
    var recomputed := codec.hash(codec.canon(m.body, m.artifacts));
    var bad := [];
    for n := 0 to |m.artifacts|
      invariant bad == Faults(m.artifacts[..n], tree, codec)
    {
      assert m.artifacts[..n + 1][..n] == m.artifacts[..n];
      var a := m.artifacts[n];
      if a.file !in tree {
        bad := bad + [(a, Missing)];
        continue;
      }
      if codec.hash(tree[a.file]) != a.sha {
        bad := bad + [(a, HashMismatch)];
      }
    }
    assert m.artifacts[..|m.artifacts|] == m.artifacts;
    var hashOk := m.recorded == Some(recomputed);
    NoFaultsIff(m.artifacts, tree, codec);
    return Report(hashOk && bad == [], hashOk, |m.artifacts|, bad);
  }

  // --- what verifying means ---

  ghost predicate Verifies(m: Manifest, tree: Tree, codec: Codec) {
    m.recorded == Some(Digest(codec, m)) && forall a <- m.artifacts :: Intact(a, tree, codec)
  }

  lemma {:induction false} NoFaultsIff(artifacts: seq<Artifact>, tree: Tree, codec: Codec)
    ensures Faults(artifacts, tree, codec) == [] <==> forall a <- artifacts :: Intact(a, tree, codec)
  {
    if artifacts != [] {
      var front, last := artifacts[..|artifacts| - 1], artifacts[|artifacts| - 1];
      NoFaultsIff(front, tree, codec);
      assert forall a :: a in artifacts <==> a in front || a == last;
      assert |Faults(artifacts, tree, codec)| ==
             |Faults(front, tree, codec)| + if Intact(last, tree, codec) then 0 else 1;
    }
  }

  /** A faulty artifact is reported, with the reason. */
  lemma {:induction false} FaultsAreExact(artifacts: seq<Artifact>, tree: Tree, codec: Codec, a: Artifact)
    ensures (a, Missing) in Faults(artifacts, tree, codec) <==> a in artifacts && a.file !in tree
    ensures (a, HashMismatch) in Faults(artifacts, tree, codec) <==>
            a in artifacts && a.file in tree && codec.hash(tree[a.file]) != a.sha
  {
    if artifacts != [] {
      var front, last := artifacts[..|artifacts| - 1], artifacts[|artifacts| - 1];
      FaultsAreExact(front, tree, codec, a);
      assert a in artifacts <==> a in front || a == last;
    }
  }

  /** A written manifest verifies against a later tree exactly when every blob
      is still there with its digest; whatever was added since goes unseen. */
  lemma WrittenVerifiesIff(listing: seq<File>, tree: Tree, later: Tree, body: string, codec: Codec)
    requires Lists(listing, tree)
    ensures Verifies(Written(listing, tree, body, codec), later, codec) <==>
            forall f <- tree :: f.Blob? ==> f in later && codec.hash(later[f]) == codec.hash(tree[f])
  {
    var m := Written(listing, tree, body, codec);
    if Verifies(m, later, codec) {
      forall f | f in tree && f.Blob?
        ensures f in later && codec.hash(later[f]) == codec.hash(tree[f])
      {
        assert f in listing;
        var i :| 0 <= i < |listing| && listing[i] == f;
        assert m.artifacts[i] in m.artifacts;
      }
    }
    if forall f <- tree :: f.Blob? ==> f in later && codec.hash(later[f]) == codec.hash(tree[f]) {
      forall a | a in m.artifacts ensures Intact(a, later, codec) {
        var i :| 0 <= i < |m.artifacts| && m.artifacts[i] == a;
      }
    }
  }

  /** A manifest that verifies pins the bytes of every blob it was written
      over, unless two contents collide; over the same tree it verifies. */
  lemma VerifiedManifestPinsBlobs(listing: seq<File>, tree: Tree, later: Tree, body: string, codec: Codec)
    requires Lists(listing, tree)
    ensures Verifies(Written(listing, tree, body, codec), tree, codec)
    ensures Verifies(Written(listing, tree, body, codec), later, codec) ==>
              forall f <- tree :: f.Blob? ==>
                f in later &&
                (later[f] == tree[f] || (later[f] != tree[f] && codec.hash(later[f]) == codec.hash(tree[f])))
  {
    WrittenVerifiesIff(listing, tree, tree, body, codec);
    WrittenVerifiesIff(listing, tree, later, body, codec);
  }

  /** Files outside the blob tree - the samples, the CSV, the folders - can
      change, come and go unnoticed. */
  lemma OtherFilesAreNotCovered(listing: seq<File>, tree: Tree, later: Tree, body: string, codec: Codec)
    requires Lists(listing, tree)
    requires forall f: File :: f.Blob? ==>
               (f in later <==> f in tree) && (f in tree ==> later[f] == tree[f])
    ensures Verifies(Written(listing, tree, body, codec), later, codec)
  {
    WrittenVerifiesIff(listing, tree, later, body, codec);
  }

  ghost predicate CanonIsInjective(codec: Codec) {
    forall b, b', a, a' :: codec.canon(b, a) == codec.canon(b', a') ==> b == b' && a == a'
  }

  /** A manifest cannot be edited under its recorded digest, short of a collision. */
  lemma DigestPinsManifest(m: Manifest, m': Manifest, tree: Tree, tree': Tree, codec: Codec)
    requires CanonIsInjective(codec)
    requires Verifies(m, tree, codec) && Verifies(m', tree', codec) && m.recorded == m'.recorded
    ensures m == m' ||
            (codec.canon(m.body, m.artifacts) != codec.canon(m'.body, m'.artifacts) &&
             Digest(codec, m) == Digest(codec, m'))
  {
  }

  // --- manifests over the artifact store ---

  /** The run directory's blobs are those of the store. */
  ghost predicate IsTreeOf(tree: Tree, s: Store) {
    && (forall f <- tree :: f.Blob? ==> f.key in s.blobs)
    && (forall k <- s.blobs :: s.blobs[k] < |s.inodes| && Blob(k) in tree && tree[Blob(k)] == s.inodes[s.blobs[k]])
  }

  /** The blob at `k`, before and after storing an artifact. */
  lemma BlobAfterPut(s: Store, call: Call, k: Key, hash: Bytes -> string)
    requires Valid(s, hash) && !Collides(s, call.content, hash) && k in s.blobs
    ensures var s', dest := PutStep(s, call, hash), Key(hash(call.content), call.ext);
            var tmp := dest.(ext := dest.ext + ".tmp");
            && Valid(s', hash)
            && (k in s'.blobs <==> !(k == tmp && dest !in s.blobs))
            && (k in s'.blobs ==> s'.inodes[s'.blobs[k]] == s.inodes[s.blobs[k]])
  {
    PutKeepsValid(s, call, hash);
    BlobStaysIff(s, call, k, hash);
    PutBlobHolds(s, call.content, call.ext, hash);
  }

  /** Storing another artifact leaves the manifest valid, except in the one
      case in which a blob's path is taken as the temporary file. */
  lemma ManifestSurvivesPutIff(s: Store, call: Call, tree: Tree, later: Tree, listing: seq<File>, body: string,
                               codec: Codec)
    requires Valid(s, codec.hash) && !Collides(s, call.content, codec.hash)
    requires IsTreeOf(tree, s) && IsTreeOf(later, PutStep(s, call, codec.hash)) && Lists(listing, tree)
    ensures var sha := codec.hash(call.content);
            Verifies(Written(listing, tree, body, codec), later, codec) <==>
            Key(sha, call.ext) in s.blobs || Key(sha, call.ext + ".tmp") !in s.blobs
  {
    var dest := Key(codec.hash(call.content), call.ext);
    var tmp := dest.(ext := dest.ext + ".tmp");
    WrittenVerifiesIff(listing, tree, later, body, codec);
    if tmp in s.blobs && dest !in s.blobs {
      BlobAfterPut(s, call, tmp, codec.hash);
      assert Blob(tmp) in tree && Blob(tmp) !in later;
    } else {
      forall f | f in tree && f.Blob? ensures f in later && later[f] == tree[f] {
        BlobAfterPut(s, call, f.key, codec.hash);
        assert Blob(f.key) == f;
      }
    }
  }

  /** A manifest written between the two puts of `BlobCanDisappear` no longer
      verifies after the second. */
  lemma ManifestCanBreak(c: Bytes, body: string, codec: Codec)
    ensures var s := After([Storing(c, "x.tmp", ".tmp")], codec.hash);
            var file := Blob(Key(codec.hash(c), ".tmp"));
            var later := After([Storing(c, "x.tmp", ".tmp"), Storing(c, "x", "")], codec.hash);
            && IsTreeOf(map[file := c], s) && Lists([file], map[file := c])
            && forall tree :: IsTreeOf(tree, later) ==>
                 !Verifies(Written([file], map[file := c], body, codec), tree, codec)
  {
    BlobCanDisappear(c, codec.hash);
    var first := Storing(c, "x.tmp", ".tmp");
    FirstPut(first, codec.hash);
    var s, file := After([first], codec.hash), Blob(Key(codec.hash(c), ".tmp"));
    var later := After([first, Storing(c, "x", "")], codec.hash);
    forall tree | IsTreeOf(tree, later)
      ensures !Verifies(Written([file], map[file := c], body, codec), tree, codec)
    {
      WrittenVerifiesIff([file], map[file := c], tree, body, codec);
      assert file in map[file := c] && file !in tree;
    }
  }
}
