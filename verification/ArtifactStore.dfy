/** The content-addressed store: a blob per content and suffix, and a folder
    per sample in which the same bytes carry a readable name. Paths lead to
    inodes; a hard link is a second path to one. */
module ArtifactStore {
  import opened Wrappers

  type Bytes = string

  /** `blobs/{sha[:2]}/{sha}{ext}`; the suffix is "" or starts with a dot. */
  datatype Key = Key(sha: string, ext: string)

  datatype Place = Place(folder: string, name: string)

  datatype Store = Store(blobs: map<Key, nat>, files: map<Place, nat>, inodes: seq<Bytes>)

  /** One call. `name` and `folder` are already safe path components; `links`
      is whether the file system lets a hard link be made. */
  datatype Call = Call(content: Bytes, ext: string, name: string, folder: Option<string>, links: bool)

  const FRESH := Store(map[], map[], [])

  /** A SHA-256 digest in hexadecimal. */
  ghost predicate Hex(hash: Bytes -> string) {
    forall c :: |hash(c)| == 64 && '.' !in hash(c)
  }

  /** The part before the last dot, if there is one. */
  function Stem(name: string): (stem: Option<string>)
    ensures stem.Some? ==> |stem.value| < |name|
  {
    if name == "" then None
    else if name[|name| - 1] == '.' then Some(name[..|name| - 1])
    else Stem(name[..|name| - 1])
  }

  lemma {:induction false} StemSplits(name: string)
    ensures Stem(name).None? <==> '.' !in name
    ensures Stem(name).Some? ==>
              var stem := Stem(name).value;
              |stem| < |name| && name == stem + "." + name[|stem| + 1..] && '.' !in name[|stem| + 1..]
  {
    if name != "" && name[|name| - 1] != '.' {
      var front := name[..|name| - 1];
      StemSplits(front);
      assert forall ch :: ch in name <==> ch in front || ch == name[|name| - 1];
      if Stem(name).Some? {
        var k := |Stem(name).value|;
        assert name[k + 1..] == front[k + 1..] + [name[|name| - 1]];
      }
    }
  }

  /** `stem-tag.ext`, or `name-tag` when there is no dot. */
  function Disambiguated(name: string, tag: string): string {
    var stem := Stem(name);
    if stem.None? then name + "-" + tag
    else stem.value + "-" + tag + "." + name[|stem.value| + 1..]
  }

  function Tag(sha: string): string { if |sha| <= 8 then sha else sha[..8] }

  /** Write a temporary file and rename it, unless the blob is there. The
      temporary name can be that of another blob, which then moves. */
  function PutBlob(s: Store, c: Bytes, dest: Key): Store {
    var tmp := Key(dest.sha, dest.ext + ".tmp");
    if dest in s.blobs then s
    else if tmp in s.blobs && s.blobs[tmp] < |s.inodes| then
      s.(blobs := (s.blobs - {tmp})[dest := s.blobs[tmp]], inodes := s.inodes[s.blobs[tmp] := c])
    else s.(blobs := s.blobs[dest := |s.inodes|], inodes := s.inodes + [c])
  }

  function Target(s: Store, inode: nat, place: Place, tag: string): Place {
    if place in s.files && s.files[place] != inode
    then place.(name := Disambiguated(place.name, tag)) else place
  }

  function PutFile(s: Store, c: Bytes, inode: nat, target: Place, links: bool): Store {
    if target in s.files then s
    else if links then s.(files := s.files[target := inode])
    else s.(files := s.files[target := |s.inodes|], inodes := s.inodes + [c])
  }

  function PutStep(s: Store, call: Call, hash: Bytes -> string): Store {
    var sha := hash(call.content);
    var s' := PutBlob(s, call.content, Key(sha, call.ext));
    if call.folder.None? then s'
    else
      var inode := s'.blobs[Key(sha, call.ext)];
      PutFile(s', call.content, inode,
              Target(s', inode, Place(call.folder.value, call.name), Tag(sha)), call.links)
  }

  /** Every path leads to an inode, and every blob to content of its digest. */
  ghost predicate Valid(s: Store, hash: Bytes -> string) {
    && (forall k <- s.blobs :: s.blobs[k] < |s.inodes| && hash(s.inodes[s.blobs[k]]) == k.sha)
    && (forall p <- s.files :: s.files[p] < |s.inodes|)
  }

  predicate HasBytes(s: Store, p: Place, c: Bytes) {
    p in s.files && s.files[p] < |s.inodes| && s.inodes[s.files[p]] == c
  }

  /** The file lies in the digest's shard and its name starts with the digest.
      With fewer than two digits there is no shard, and the scan fails. */
  predicate Answers(k: Key, sha: string) {
    && |sha| >= 2 && |k.sha| >= 2 && sha[..2] == k.sha[..2]
    && sha <= k.sha + k.ext
  }

  class ArtifactStore {
    const hash: Bytes -> string
    var blobs: map<Key, nat>
    var files: map<Place, nat>
    var inodes: seq<Bytes>

    function State(): Store
      reads this
    {
      Store(blobs, files, inodes)
    }

    constructor (hash: Bytes -> string)
      ensures State() == FRESH && this.hash == hash && Valid(State(), hash)
    {
      this.hash, blobs, files, inodes := hash, map[], map[], [];
    }

    method Put(call: Call) returns (key: Key)
      requires Valid(State(), hash)
      modifies this`blobs, this`files, this`inodes
      ensures State() == PutStep(old(State()), call, hash)
      ensures Valid(State(), hash)
      ensures key == Key(hash(call.content), call.ext) && key in blobs
    {
      PutKeepsValid(State(), call, hash);
      var sha := hash(call.content);
      key := Key(sha, call.ext);
      var tmp := Key(sha, call.ext + ".tmp");
      if key !in blobs {
        if tmp in blobs {
          inodes := inodes[blobs[tmp] := call.content];
          blobs := (blobs - {tmp})[key := blobs[tmp]];
        } else {
          blobs := blobs[key := |inodes|];
          inodes := inodes + [call.content];
        }
      }
      if call.folder.Some? {
        var target := Place(call.folder.value, call.name);
        if target in files && files[target] != blobs[key] {
          target := Place(call.folder.value, Disambiguated(call.name, Tag(sha)));
        }
        if target !in files {
          if call.links {
            files := files[target := blobs[key]];
          } else {
            files := files[target := |inodes|];
            inodes := inodes + [call.content];
          }
        }
      }
    }

    /** Scans the shard of the digest, in any order, for a name starting with it. */
    method Get(sha: string) returns (r: Option<Bytes>)
      requires Valid(State(), hash)
      ensures r.None? <==> forall k <- blobs :: !Answers(k, sha)
      ensures r.None? <==> forall k <- blobs | |sha| >= 2 && |k.sha| >= 2 && sha[..2] == k.sha[..2] ::
                             !(sha <= k.sha + k.ext)
      ensures r.Some? ==> exists k <- blobs :: Answers(k, sha) && r.value == inodes[blobs[k]]
    {
      var todo := blobs.Keys;
      while todo != {}
        invariant todo <= blobs.Keys
        invariant forall k <- blobs.Keys - todo :: !Answers(k, sha)
      {
        var k :| k in todo;
        if Answers(k, sha) {
          return Some(inodes[blobs[k]]);
        }
        todo := todo - {k};
      }
      return None;
    }
  }

  // --- blobs ---

  lemma PutBlobKeepsValid(s: Store, c: Bytes, ext: string, hash: Bytes -> string)
    requires Valid(s, hash)
    ensures var s', dest := PutBlob(s, c, Key(hash(c), ext)), Key(hash(c), ext);
            Valid(s', hash) && dest in s'.blobs && s'.files == s.files
  {
  }

  lemma PutFileKeepsValid(s: Store, c: Bytes, inode: nat, target: Place, links: bool, hash: Bytes -> string)
    requires Valid(s, hash) && inode < |s.inodes|
    ensures Valid(PutFile(s, c, inode, target, links), hash)
  {
  }

  lemma PutKeepsValid(s: Store, call: Call, hash: Bytes -> string)
    requires Valid(s, hash)
    ensures Valid(PutStep(s, call, hash), hash)
  {
    var sha := hash(call.content);
    PutBlobKeepsValid(s, call.content, call.ext, hash);
    if call.folder.Some? {
      var s' := PutBlob(s, call.content, Key(sha, call.ext));
      var inode := s'.blobs[Key(sha, call.ext)];
      PutFileKeepsValid(s', call.content, inode,
                        Target(s', inode, Place(call.folder.value, call.name), Tag(sha)), call.links, hash);
    }
  }

  /** What a digest leads to has that digest: it is the content put, unless two
      contents collide. */
  lemma BlobsPinContent(s: Store, call: Call, k: Key, hash: Bytes -> string)
    requires Hex(hash) && Valid(s, hash)
    requires k in PutStep(s, call, hash).blobs && Answers(k, hash(call.content))
    ensures var s' := PutStep(s, call, hash);
            s'.blobs[k] < |s'.inodes| &&
            var c := s'.inodes[s'.blobs[k]];
            c == call.content || (c != call.content && hash(c) == hash(call.content))
  {
    PutKeepsValid(s, call, hash);
    var s' := PutStep(s, call, hash);
    assert |k.sha| == |hash(s'.inodes[s'.blobs[k]])| == 64;
    assert (k.sha + k.ext)[..64] == k.sha;
  }

  /** A blob path goes away in one case only: content already stored under the
      suffix `.tmp` is put again without one, and its path is taken as the
      temporary file. (A suffix never has two dots.) */
  lemma BlobStaysIff(s: Store, call: Call, k: Key, hash: Bytes -> string)
    requires Valid(s, hash) && k in s.blobs
    ensures k in PutStep(s, call, hash).blobs <==>
            !(k == Key(hash(call.content), call.ext + ".tmp") && Key(hash(call.content), call.ext) !in s.blobs)
  {
    var dest := Key(hash(call.content), call.ext);
    assert |call.ext + ".tmp"| != |call.ext|;
  }

  // --- the readable folders ---

  function PlaceOf(call: Call): Place
    requires call.folder.Some?
  {
    Place(call.folder.value, call.name)
  }

  function OtherPlaceOf(call: Call, hash: Bytes -> string): Place
    requires call.folder.Some?
  {
    Place(call.folder.value, Disambiguated(call.name, Tag(hash(call.content))))
  }

  /** The folder holds the bytes under the name asked for or the disambiguated one. */
  predicate IsFiled(s: Store, call: Call, hash: Bytes -> string)
    requires call.folder.Some?
  {
    HasBytes(s, PlaceOf(call), call.content) || HasBytes(s, OtherPlaceOf(call, hash), call.content)
  }

  /** No content in the store has the digest of another one. */
  ghost predicate Collides(s: Store, c: Bytes, hash: Bytes -> string) {
    exists d <- s.inodes :: d != c && hash(d) == hash(c)
  }

  lemma PutBlobHolds(s: Store, c: Bytes, ext: string, hash: Bytes -> string)
    requires Valid(s, hash) && !Collides(s, c, hash)
    ensures var s', dest := PutBlob(s, c, Key(hash(c), ext)), Key(hash(c), ext);
            && dest in s'.blobs && s'.blobs[dest] < |s'.inodes| && s'.inodes[s'.blobs[dest]] == c
            && s'.files == s.files && s.inodes <= s'.inodes
            && Valid(s', hash)
  {
  }

  lemma FilesKeepBytes(s: Store, call: Call, hash: Bytes -> string)
    requires Valid(s, hash) && !Collides(s, call.content, hash)
    ensures var s' := PutStep(s, call, hash);
            s.inodes <= s'.inodes && forall p <- s.files :: p in s'.files && s'.files[p] == s.files[p]
  {
    PutBlobHolds(s, call.content, call.ext, hash);
  }

  /** A put files its bytes unless both names are taken by other bytes. */
  lemma PutFilesItIff(s: Store, call: Call, hash: Bytes -> string)
    requires Valid(s, hash) && !Collides(s, call.content, hash) && call.folder.Some?
    ensures IsFiled(PutStep(s, call, hash), call, hash) <==>
            || PlaceOf(call) !in s.files || HasBytes(s, PlaceOf(call), call.content)
            || OtherPlaceOf(call, hash) !in s.files || HasBytes(s, OtherPlaceOf(call, hash), call.content)
  {
    PutBlobHolds(s, call.content, call.ext, hash);
  }

  /** The second name a put tries: eight digits of the digest behind the stem, or
      behind a name without a dot. */
  lemma SecondName(call: Call, hash: Bytes -> string) returns (stem: string, ext: string)
    requires Hex(hash) && call.folder.Some?
    ensures OtherPlaceOf(call, hash).folder == call.folder.value
    ensures if '.' in call.name
            then
              && call.name == stem + "." + ext && '.' !in ext
              && OtherPlaceOf(call, hash).name == stem + "-" + hash(call.content)[..8] + "." + ext
            else OtherPlaceOf(call, hash).name == call.name + "-" + hash(call.content)[..8]
  {
    StemSplits(call.name);
    assert |hash(call.content)| == 64;
    if '.' in call.name {
      stem := Stem(call.name).value;
      ext := call.name[|stem| + 1..];
    } else {
      stem, ext := "", "";
    }
  }

  /** Under a free name the file is a second path to the blob, or a copy where no
      link can be made. */
  lemma LinkedOrCopied(s: Store, call: Call, hash: Bytes -> string)
    requires Valid(s, hash) && call.folder.Some? && PlaceOf(call) !in s.files
    ensures var s', key := PutStep(s, call, hash), Key(hash(call.content), call.ext);
            && PlaceOf(call) in s'.files && key in s'.blobs && s'.files[PlaceOf(call)] < |s'.inodes|
            && (call.links ==> s'.files[PlaceOf(call)] == s'.blobs[key])
            && (!call.links ==>
                  s'.inodes[s'.files[PlaceOf(call)]] == call.content && s'.files[PlaceOf(call)] != s'.blobs[key])
  {
    PutBlobKeepsValid(s, call.content, call.ext, hash);
  }

  /** Putting the same thing again changes nothing, exactly when the file under its
      name is the blob itself or its second name is taken too: a copy is not
      recognized and gets a second one beside it. */
  lemma PutTwiceIff(s: Store, call: Call, hash: Bytes -> string)
    requires Valid(s, hash)
    ensures var s' := PutStep(s, call, hash);
            PutStep(s', call, hash) == s' <==>
            || call.folder.None?
            || s'.files[PlaceOf(call)] == s'.blobs[Key(hash(call.content), call.ext)]
            || OtherPlaceOf(call, hash) in s'.files
  {
    PutBlobKeepsValid(s, call.content, call.ext, hash);
    PutKeepsValid(s, call, hash);
  }

  lemma SplitTag(a: string, b: string, t: string, u: string)
    requires |t| == |u| && a + "-" + t == b + "-" + u
    ensures a == b && t == u
  {
    var x := a + "-" + t;
    assert x[..|a|] == a && x[|a| + 1..] == t;
    assert x == b + "-" + u && x[..|b|] == b && x[|b| + 1..] == u;
  }

  lemma SplitDot(a: string, b: string, e: string, f: string)
    requires a + "." + e == b + "." + f && '.' !in e && '.' !in f
    ensures a == b && e == f
  {
    var x := a + "." + e;
    assert x == b + "." + f;
    assert x[..|a|] == a && x[..|b|] == b && x[|a| + 1..] == e && x[|b| + 1..] == f;
    assert x[|a|] == '.' && x[|b|] == '.';
    assert |a| == |b|;
  }

  lemma DisambiguatedDots(name: string, tag: string)
    requires '.' !in tag
    ensures '.' in Disambiguated(name, tag) <==> '.' in name
  {
    StemSplits(name);
    if Stem(name).Some? {
      assert Disambiguated(name, tag)[|Stem(name).value| + 1 + |tag|] == '.';
    }
  }

  /** A disambiguated name tells which name and which tag it was made of. */
  lemma DisambiguatedIsInjective(name: string, other: string, tag: string, tag': string)
    requires |tag| == |tag'| && '.' !in tag && '.' !in tag'
    requires Disambiguated(name, tag) == Disambiguated(other, tag')
    ensures name == other && tag == tag'
  {
    StemSplits(name);
    StemSplits(other);
    DisambiguatedDots(name, tag);
    DisambiguatedDots(other, tag');
    if Stem(name).None? {
      SplitTag(name, other, tag, tag');
    } else {
      var a, b := Stem(name).value, Stem(other).value;
      SplitDot(a + "-" + tag, b + "-" + tag', name[|a| + 1..], other[|b| + 1..]);
      SplitTag(a, b, tag, tag');
    }
  }

  // --- whole runs ---

  function After(calls: seq<Call>, hash: Bytes -> string): Store {
    if calls == [] then FRESH else PutStep(After(calls[..|calls| - 1], hash), calls[|calls| - 1], hash)
  }

  /** No two contents of the run collide. */
  ghost predicate DigestsDiffer(calls: seq<Call>, hash: Bytes -> string) {
    forall i, j :: 0 <= i < j < |calls| && hash(calls[i].content) == hash(calls[j].content) ==>
                     calls[i].content == calls[j].content
  }

  /** Eight digits of the digest tell the contents of the run apart. */
  ghost predicate TagsDiffer(calls: seq<Call>, hash: Bytes -> string) {
    forall i, j :: 0 <= i < j < |calls| && Tag(hash(calls[i].content)) == Tag(hash(calls[j].content)) ==>
                     calls[i].content == calls[j].content
  }

  /** No name asked for is the disambiguated form of another one in its folder. */
  ghost predicate NamesArePlain(calls: seq<Call>, hash: Bytes -> string) {
    forall i, j :: 0 <= i < |calls| && 0 <= j < |calls| &&
                   calls[i].folder.Some? && calls[i].folder == calls[j].folder ==>
                     PlaceOf(calls[i]) != OtherPlaceOf(calls[j], hash)
  }

  ghost predicate CameFrom(call: Call, p: Place, c: Bytes, hash: Bytes -> string) {
    call.folder.Some? && call.content == c && (p == PlaceOf(call) || p == OtherPlaceOf(call, hash))
  }

  ghost predicate PutBySome(calls: seq<Call>, p: Place, c: Bytes, hash: Bytes -> string) {
    exists i :: 0 <= i < |calls| && CameFrom(calls[i], p, c, hash)
  }

  ghost predicate ContentOfSome(calls: seq<Call>, c: Bytes) {
    exists i :: 0 <= i < |calls| && calls[i].content == c
  }

  ghost predicate Explained(s: Store, calls: seq<Call>, hash: Bytes -> string) {
    && Valid(s, hash)
    && (forall n :: 0 <= n < |s.inodes| ==> ContentOfSome(calls, s.inodes[n]))
    && (forall p <- s.files :: PutBySome(calls, p, s.inodes[s.files[p]], hash))
  }

  lemma NoCollision(s: Store, calls: seq<Call>, last: Call, hash: Bytes -> string)
    requires DigestsDiffer(calls + [last], hash) && Explained(s, calls, hash)
    ensures !Collides(s, last.content, hash)
  {
    forall n | 0 <= n < |s.inodes| && hash(s.inodes[n]) == hash(last.content)
      ensures s.inodes[n] == last.content
    {
      assert ContentOfSome(calls, s.inodes[n]);
      var i :| 0 <= i < |calls| && calls[i].content == s.inodes[n];
      assert (calls + [last])[i] == calls[i] && (calls + [last])[|calls|] == last;
    }
  }

  lemma InodesExplained(s: Store, calls: seq<Call>, last: Call, hash: Bytes -> string)
    requires Explained(s, calls, hash) && !Collides(s, last.content, hash)
    ensures var s', all := PutStep(s, last, hash), calls + [last];
            forall n :: 0 <= n < |s'.inodes| ==> ContentOfSome(all, s'.inodes[n])
  {
    var s', all := PutStep(s, last, hash), calls + [last];
    FilesKeepBytes(s, last, hash);
    assert all[|calls|] == last;
    forall n | 0 <= n < |s'.inodes| ensures ContentOfSome(all, s'.inodes[n]) {
      if n < |s.inodes| {
        var i :| 0 <= i < |calls| && calls[i].content == s.inodes[n];
        assert all[i] == calls[i];
      } else {
        assert s'.inodes[n] == last.content;
      }
    }
  }

  lemma FilesExplained(s: Store, calls: seq<Call>, last: Call, hash: Bytes -> string)
    requires Explained(s, calls, hash) && !Collides(s, last.content, hash)
    ensures var s', all := PutStep(s, last, hash), calls + [last];
            Valid(s', hash) && forall p <- s'.files :: PutBySome(all, p, s'.inodes[s'.files[p]], hash)
  {
    var s', all := PutStep(s, last, hash), calls + [last];
    PutKeepsValid(s, last, hash);
    PutBlobHolds(s, last.content, last.ext, hash);
    FilesKeepBytes(s, last, hash);
    assert all[|calls|] == last;
    forall p | p in s'.files ensures PutBySome(all, p, s'.inodes[s'.files[p]], hash) {
      if p in s.files {
        var i :| 0 <= i < |calls| && CameFrom(calls[i], p, s.inodes[s.files[p]], hash);
        assert all[i] == calls[i];
      } else {
        assert CameFrom(last, p, s'.inodes[s'.files[p]], hash);
      }
    }
  }

  lemma PutIsExplained(s: Store, calls: seq<Call>, last: Call, hash: Bytes -> string)
    requires Explained(s, calls, hash) && !Collides(s, last.content, hash)
    ensures Explained(PutStep(s, last, hash), calls + [last], hash)
  {
    InodesExplained(s, calls, last, hash);
    FilesExplained(s, calls, last, hash);
  }

  lemma LastIsFiled(s: Store, calls: seq<Call>, last: Call, hash: Bytes -> string)
    requires Hex(hash) && last.folder.Some?
    requires Explained(s, calls, hash) && TagsDiffer(calls + [last], hash) && NamesArePlain(calls + [last], hash)
    ensures IsFiled(PutStep(s, last, hash), last, hash)
  {
    TagsTellDigests(calls + [last], hash);
    NoCollision(s, calls, last, hash);
    PutFilesItIff(s, last, hash);
    var d, all := OtherPlaceOf(last, hash), calls + [last];
    if d in s.files {
      assert PutBySome(calls, d, s.inodes[s.files[d]], hash);
      var i :| 0 <= i < |calls| && CameFrom(calls[i], d, s.inodes[s.files[d]], hash);
      assert all[i] == calls[i] && all[|calls|] == last;
      assert d == OtherPlaceOf(calls[i], hash);
      DisambiguatedIsInjective(last.name, calls[i].name, Tag(hash(last.content)), Tag(hash(calls[i].content)));
    }
  }

  lemma FiledStaysFiled(s: Store, call: Call, last: Call, hash: Bytes -> string)
    requires Valid(s, hash) && !Collides(s, last.content, hash)
    requires call.folder.Some? && IsFiled(s, call, hash)
    ensures IsFiled(PutStep(s, last, hash), call, hash)
  {
    FilesKeepBytes(s, last, hash);
  }

  lemma TagsTellDigests(calls: seq<Call>, hash: Bytes -> string)
    requires TagsDiffer(calls, hash)
    ensures DigestsDiffer(calls, hash)
  {
  }

  lemma FrontDigestsDiffer(front: seq<Call>, last: Call, hash: Bytes -> string)
    requires DigestsDiffer(front + [last], hash)
    ensures DigestsDiffer(front, hash)
  {
    assert forall i :: 0 <= i < |front| ==> (front + [last])[i] == front[i];
  }

  lemma FrontTagsDiffer(front: seq<Call>, last: Call, hash: Bytes -> string)
    requires TagsDiffer(front + [last], hash)
    ensures TagsDiffer(front, hash)
  {
    assert forall i :: 0 <= i < |front| ==> (front + [last])[i] == front[i];
  }

  lemma FrontNamesArePlain(front: seq<Call>, last: Call, hash: Bytes -> string)
    requires NamesArePlain(front + [last], hash)
    ensures NamesArePlain(front, hash)
  {
    assert forall i :: 0 <= i < |front| ==> (front + [last])[i] == front[i];
  }

  lemma {:induction false} RunIsExplained(calls: seq<Call>, hash: Bytes -> string)
    requires DigestsDiffer(calls, hash)
    ensures Explained(After(calls, hash), calls, hash)
  {
    if calls != [] {
      var front, last := calls[..|calls| - 1], calls[|calls| - 1];
      assert front + [last] == calls;
      FrontDigestsDiffer(front, last, hash);
      RunIsExplained(front, hash);
      NoCollision(After(front, hash), front, last, hash);
      PutIsExplained(After(front, hash), front, last, hash);
    }
  }

  /** One of the two names is free, or holds the bytes already. */
  predicate CanFile(s: Store, call: Call, hash: Bytes -> string)
    requires call.folder.Some?
  {
    || PlaceOf(call) !in s.files || HasBytes(s, PlaceOf(call), call.content)
    || OtherPlaceOf(call, hash) !in s.files || HasBytes(s, OtherPlaceOf(call, hash), call.content)
  }

  lemma LaterPutsFileNothing(s: Store, call: Call, last: Call, hash: Bytes -> string)
    requires Valid(s, hash) && !Collides(s, last.content, hash) && call.folder.Some?
    requires !CanFile(s, call, hash)
    ensures !CanFile(PutStep(s, last, hash), call, hash) && !IsFiled(PutStep(s, last, hash), call, hash)
  {
    FilesKeepBytes(s, last, hash);
  }

  lemma LastPutCollidesNot(front: seq<Call>, last: Call, hash: Bytes -> string)
    requires DigestsDiffer(front + [last], hash)
    ensures DigestsDiffer(front, hash) && Valid(After(front, hash), hash)
    ensures !Collides(After(front, hash), last.content, hash)
    ensures After(front + [last], hash) == PutStep(After(front, hash), last, hash)
  {
    FrontDigestsDiffer(front, last, hash);
    RunIsExplained(front, hash);
    NoCollision(After(front, hash), front, last, hash);
    assert (front + [last])[..|front|] == front;
  }

  lemma UnfiledStep(front: seq<Call>, last: Call, call: Call, hash: Bytes -> string)
    requires DigestsDiffer(front + [last], hash) && call.folder.Some? && !CanFile(After(front, hash), call, hash)
    ensures !CanFile(After(front + [last], hash), call, hash) && !IsFiled(After(front + [last], hash), call, hash)
  {
    LastPutCollidesNot(front, last, hash);
    LaterPutsFileNothing(After(front, hash), call, last, hash);
  }

  lemma {:induction false} UnfiledForGood(calls: seq<Call>, i: nat, hash: Bytes -> string)
    requires DigestsDiffer(calls, hash) && i < |calls| && calls[i].folder.Some?
    requires !CanFile(After(calls[..i], hash), calls[i], hash)
    ensures !CanFile(After(calls, hash), calls[i], hash) && !IsFiled(After(calls, hash), calls[i], hash)
  {
    var front, last := calls[..|calls| - 1], calls[|calls| - 1];
    assert front + [last] == calls;
    if i < |front| {
      FrontDigestsDiffer(front, last, hash);
      assert front[..i] == calls[..i];
      UnfiledForGood(front, i, hash);
    } else {
      assert front == calls[..i];
    }
    UnfiledStep(front, last, calls[i], hash);
  }

  lemma FiledStep(front: seq<Call>, last: Call, call: Call, hash: Bytes -> string)
    requires DigestsDiffer(front + [last], hash) && call.folder.Some?
    requires IsFiled(After(front, hash), call, hash) || (call == last && CanFile(After(front, hash), call, hash))
    ensures IsFiled(After(front + [last], hash), call, hash)
  {
    LastPutCollidesNot(front, last, hash);
    if IsFiled(After(front, hash), call, hash) {
      FiledStaysFiled(After(front, hash), call, last, hash);
    } else {
      PutFilesItIff(After(front, hash), last, hash);
    }
  }

  lemma {:induction false} FiledForGood(calls: seq<Call>, i: nat, hash: Bytes -> string)
    requires DigestsDiffer(calls, hash) && i < |calls| && calls[i].folder.Some?
    requires CanFile(After(calls[..i], hash), calls[i], hash)
    ensures IsFiled(After(calls, hash), calls[i], hash)
  {
    var front, last := calls[..|calls| - 1], calls[|calls| - 1];
    assert front + [last] == calls;
    if i < |front| {
      FrontDigestsDiffer(front, last, hash);
      assert front[..i] == calls[..i];
      FiledForGood(front, i, hash);
    } else {
      assert front == calls[..i];
    }
    FiledStep(front, last, calls[i], hash);
  }

  /** Over every run without collisions: the bytes of a put are in its folder at
      the end exactly when one of its two names was free or held them at the
      time; what is filed stays, and what is not is never filed later. */
  lemma FiledAtTheEndIff(calls: seq<Call>, i: nat, hash: Bytes -> string)
    requires DigestsDiffer(calls, hash) && i < |calls| && calls[i].folder.Some?
    ensures IsFiled(After(calls, hash), calls[i], hash) <==> CanFile(After(calls[..i], hash), calls[i], hash)
  {
    if CanFile(After(calls[..i], hash), calls[i], hash) {
      FiledForGood(calls, i, hash);
    } else {
      UnfiledForGood(calls, i, hash);
    }
  }

  /** In a run whose digests differ in their first eight digits, and which asks
      for no disambiguated name, every file put in a folder is there at the end
      with its bytes. */
  lemma {:induction false} EveryPutIsFiled(calls: seq<Call>, i: nat, hash: Bytes -> string)
    requires Hex(hash) && TagsDiffer(calls, hash) && NamesArePlain(calls, hash)
    requires i < |calls| && calls[i].folder.Some?
    ensures IsFiled(After(calls, hash), calls[i], hash)
  {
    var front, last := calls[..|calls| - 1], calls[|calls| - 1];
    assert front + [last] == calls;
    TagsTellDigests(calls, hash);
    FrontTagsDiffer(front, last, hash);
    FrontDigestsDiffer(front, last, hash);
    RunIsExplained(front, hash);
    if i < |front| {
      FrontNamesArePlain(front, last, hash);
      EveryPutIsFiled(front, i, hash);
      NoCollision(After(front, hash), front, last, hash);
      FiledStaysFiled(After(front, hash), calls[i], last, hash);
    } else {
      LastIsFiled(After(front, hash), front, last, hash);
    }
  }

  // --- blobs over whole runs ---

  lemma OneMorePut(calls: seq<Call>, last: Call, hash: Bytes -> string)
    ensures After(calls + [last], hash) == PutStep(After(calls, hash), last, hash)
  {
    assert (calls + [last])[..|calls|] == calls;
  }

  /** What is stored was put, collisions or not. */
  ghost predicate AllPut(s: Store, calls: seq<Call>, hash: Bytes -> string) {
    Valid(s, hash) && forall n :: 0 <= n < |s.inodes| ==> ContentOfSome(calls, s.inodes[n])
  }

  lemma ContentOfMore(calls: seq<Call>, last: Call, c: Bytes)
    ensures ContentOfSome(calls + [last], c) <==> ContentOfSome(calls, c) || last.content == c
  {
    assert (calls + [last])[|calls|] == last;
    if ContentOfSome(calls, c) {
      var i :| 0 <= i < |calls| && calls[i].content == c;
      assert (calls + [last])[i] == calls[i];
    }
  }

  lemma PutStoresItsContent(s: Store, call: Call, n: nat, hash: Bytes -> string)
    requires n < |PutStep(s, call, hash).inodes|
    ensures var s' := PutStep(s, call, hash);
            s'.inodes[n] == call.content || (n < |s.inodes| && s'.inodes[n] == s.inodes[n])
  {
  }

  lemma {:induction false} RunStoresPuts(calls: seq<Call>, hash: Bytes -> string)
    ensures AllPut(After(calls, hash), calls, hash)
  {
    if calls != [] {
      var front, last := calls[..|calls| - 1], calls[|calls| - 1];
      RunStoresPuts(front, hash);
      PutKeepsValid(After(front, hash), last, hash);
      assert front + [last] == calls;
      forall n | 0 <= n < |After(calls, hash).inodes| ensures ContentOfSome(calls, After(calls, hash).inodes[n]) {
        PutStoresItsContent(After(front, hash), last, n, hash);
        ContentOfMore(front, last, After(calls, hash).inodes[n]);
      }
    }
  }

  /** Some blob of the digest, whatever its suffix. */
  ghost predicate HasDigest(s: Store, sha: string) { exists k <- s.blobs :: k.sha == sha }

  lemma PutKeepsDigests(s: Store, call: Call, sha: string, hash: Bytes -> string)
    requires Valid(s, hash)
    ensures HasDigest(PutStep(s, call, hash), sha) <==> HasDigest(s, sha) || sha == hash(call.content)
  {
    var s', dest := PutStep(s, call, hash), Key(hash(call.content), call.ext);
    assert dest in s'.blobs;
    if HasDigest(s, sha) && sha != hash(call.content) {
      var k :| k in s.blobs && k.sha == sha;
      assert k in s'.blobs;
    }
  }

  lemma DigestsAfterMore(calls: seq<Call>, last: Call, sha: string, hash: Bytes -> string)
    ensures HasDigest(After(calls + [last], hash), sha) <==>
            HasDigest(After(calls, hash), sha) || sha == hash(last.content)
  {
    RunStoresPuts(calls, hash);
    OneMorePut(calls, last, hash);
    PutKeepsDigests(After(calls, hash), last, sha, hash);
  }

  lemma {:induction false} DigestsArePut(calls: seq<Call>, i: nat, hash: Bytes -> string)
    requires i < |calls|
    ensures HasDigest(After(calls, hash), hash(calls[i].content))
  {
    var front, last := calls[..|calls| - 1], calls[|calls| - 1];
    assert front + [last] == calls;
    DigestsAfterMore(front, last, hash(calls[i].content), hash);
    if i < |front| {
      DigestsArePut(front, i, hash);
    }
  }

  lemma AnswerHasDigest(s: Store, k: Key, sha: string, hash: Bytes -> string)
    requires Hex(hash) && Valid(s, hash) && k in s.blobs && |sha| == 64 && Answers(k, sha)
    ensures k.sha == sha && hash(s.inodes[s.blobs[k]]) == sha
  {
    assert |k.sha| == |hash(s.inodes[s.blobs[k]])| == 64;
    assert (k.sha + k.ext)[..64] == k.sha;
  }

  lemma SameDigestSameContent(calls: seq<Call>, i: nat, c: Bytes, hash: Bytes -> string)
    requires DigestsDiffer(calls, hash) && i < |calls| && ContentOfSome(calls, c)
    requires hash(c) == hash(calls[i].content)
    ensures c == calls[i].content
  {
    var j :| 0 <= j < |calls| && calls[j].content == c;
  }

  /** After any sequence of puts `get(sha(c))` finds a file for every `c` put,
      and whichever it finds holds some content put with that digest: `c`
      itself, unless two contents put collide. */
  lemma GetReturnsWhatWasPut(calls: seq<Call>, i: nat, hash: Bytes -> string)
    requires Hex(hash) && i < |calls|
    ensures var s, sha := After(calls, hash), hash(calls[i].content);
            && Valid(s, hash)
            && (exists k <- s.blobs :: Answers(k, sha))
            && (forall k <- s.blobs :: Answers(k, sha) ==>
                  ContentOfSome(calls, s.inodes[s.blobs[k]]) && hash(s.inodes[s.blobs[k]]) == sha)
            && (DigestsDiffer(calls, hash) ==>
                  forall k <- s.blobs :: Answers(k, sha) ==> s.inodes[s.blobs[k]] == calls[i].content)
  {
    var s, sha := After(calls, hash), hash(calls[i].content);
    RunStoresPuts(calls, hash);
    DigestsArePut(calls, i, hash);
    var k :| k in s.blobs && k.sha == sha;
    assert |sha| == 64 && Answers(k, sha);
    forall k | k in s.blobs && Answers(k, sha)
      ensures ContentOfSome(calls, s.inodes[s.blobs[k]]) && hash(s.inodes[s.blobs[k]]) == sha
      ensures DigestsDiffer(calls, hash) ==> s.inodes[s.blobs[k]] == calls[i].content
    {
      AnswerHasDigest(s, k, sha, hash);
      if DigestsDiffer(calls, hash) {
        SameDigestSameContent(calls, i, s.inodes[s.blobs[k]], hash);
      }
    }
  }

  function PathOf(call: Call, hash: Bytes -> string): Key { Key(hash(call.content), call.ext) }

  /** The put uses the path for its temporary file, and renames it away. */
  predicate Takes(s: Store, call: Call, k: Key, hash: Bytes -> string) {
    k == Key(hash(call.content), call.ext + ".tmp") && PathOf(call, hash) !in s.blobs
  }

  /** Some put returned the path, and none took it since. */
  ghost predicate Stands(calls: seq<Call>, k: Key, hash: Bytes -> string) {
    exists m :: 0 <= m < |calls| && PathOf(calls[m], hash) == k && Untaken(calls, m, k, hash)
  }

  ghost predicate Untaken(calls: seq<Call>, m: nat, k: Key, hash: Bytes -> string) {
    forall j :: m < j < |calls| ==> !Takes(After(calls[..j], hash), calls[j], k, hash)
  }

  lemma UntakenByMore(calls: seq<Call>, last: Call, m: nat, k: Key, hash: Bytes -> string)
    requires m < |calls|
    ensures Untaken(calls + [last], m, k, hash) <==>
            Untaken(calls, m, k, hash) && !Takes(After(calls, hash), last, k, hash)
  {
    var all := calls + [last];
    assert all[|calls|] == last && all[..|calls|] == calls;
    assert forall j :: 0 <= j < |calls| ==> all[j] == calls[j] && all[..j] == calls[..j];
  }

  lemma StillStands(calls: seq<Call>, last: Call, k: Key, hash: Bytes -> string)
    requires Stands(calls, k, hash) && !Takes(After(calls, hash), last, k, hash)
    ensures Stands(calls + [last], k, hash)
  {
    var m :| 0 <= m < |calls| && PathOf(calls[m], hash) == k && Untaken(calls, m, k, hash);
    UntakenByMore(calls, last, m, k, hash);
    assert (calls + [last])[m] == calls[m];
  }

  lemma StoodBefore(calls: seq<Call>, last: Call, k: Key, hash: Bytes -> string)
    requires Stands(calls + [last], k, hash) && PathOf(last, hash) != k
    ensures Stands(calls, k, hash) && !Takes(After(calls, hash), last, k, hash)
  {
    var all := calls + [last];
    var m :| 0 <= m < |all| && PathOf(all[m], hash) == k && Untaken(all, m, k, hash);
    assert all[|calls|] == last;
    UntakenByMore(calls, last, m, k, hash);
    assert all[m] == calls[m];
  }

  lemma StandsAfterMore(calls: seq<Call>, last: Call, k: Key, hash: Bytes -> string)
    ensures Stands(calls + [last], k, hash) <==>
            PathOf(last, hash) == k || (Stands(calls, k, hash) && !Takes(After(calls, hash), last, k, hash))
  {
    if PathOf(last, hash) == k {
      assert (calls + [last])[|calls|] == last && Untaken(calls + [last], |calls|, k, hash);
    } else if Stands(calls + [last], k, hash) {
      StoodBefore(calls, last, k, hash);
    } else if Stands(calls, k, hash) && !Takes(After(calls, hash), last, k, hash) {
      StillStands(calls, last, k, hash);
    }
  }

  lemma PathAfterPut(s: Store, call: Call, k: Key, hash: Bytes -> string)
    requires Valid(s, hash)
    ensures k in PutStep(s, call, hash).blobs <==>
            k == PathOf(call, hash) || (k in s.blobs && !Takes(s, call, k, hash))
  {
    if k in s.blobs {
      BlobStaysIff(s, call, k, hash);
    }
  }

  lemma {:induction false} PathIsThereIff(calls: seq<Call>, k: Key, hash: Bytes -> string)
    ensures k in After(calls, hash).blobs <==> Stands(calls, k, hash)
  {
    if calls != [] {
      var front, last := calls[..|calls| - 1], calls[|calls| - 1];
      PathIsThereIff(front, k, hash);
      RunStoresPuts(front, hash);
      PathAfterPut(After(front, hash), last, k, hash);
      StandsAfterMore(front, last, k, hash);
      assert front + [last] == calls;
    }
  }

  /** Over every run a path leads to a blob at the end exactly when some put
      returned it and no later one took it as its temporary file; short of a
      collision it then holds the content of every put that returned it. */
  lemma PathStandsIff(calls: seq<Call>, k: Key, hash: Bytes -> string)
    ensures k in After(calls, hash).blobs <==> Stands(calls, k, hash)
    ensures var s := After(calls, hash);
            DigestsDiffer(calls, hash) && k in s.blobs ==>
              && s.blobs[k] < |s.inodes|
              && forall i :: 0 <= i < |calls| && PathOf(calls[i], hash) == k ==>
                   s.inodes[s.blobs[k]] == calls[i].content
  {
    PathIsThereIff(calls, k, hash);
    RunStoresPuts(calls, hash);
    var s := After(calls, hash);
    if DigestsDiffer(calls, hash) && k in s.blobs {
      forall i | 0 <= i < |calls| && PathOf(calls[i], hash) == k
        ensures s.inodes[s.blobs[k]] == calls[i].content
      {
        SameDigestSameContent(calls, i, s.inodes[s.blobs[k]], hash);
      }
    }
  }

  // --- witnesses ---

  function Storing(c: Bytes, name: string, ext: string): Call { Call(c, ext, name, None, true) }

  lemma FirstPut(first: Call, hash: Bytes -> string)
    ensures After([first], hash) == PutStep(FRESH, first, hash)
    ensures var key := Key(hash(first.content), first.ext);
            && (first.folder.None? ==>
                  After([first], hash) == Store(map[key := 0], map[], [first.content]))
            && (first.folder.Some? && first.links ==>
                  After([first], hash) == Store(map[key := 0], map[PlaceOf(first) := 0], [first.content]))
  {
    assert [first][..0] == [];
    assert After([], hash) == FRESH;
    var key := Key(hash(first.content), first.ext);
    assert PutBlob(FRESH, first.content, key) == Store(map[key := 0], map[], [first.content]);
  }

  /** The same content put as `x.tmp` and then as `x`: the first blob is gone. */
  lemma BlobCanDisappear(c: Bytes, hash: Bytes -> string)
    ensures Key(hash(c), ".tmp") in After([Storing(c, "x.tmp", ".tmp")], hash).blobs
    ensures Key(hash(c), ".tmp") !in After([Storing(c, "x.tmp", ".tmp"), Storing(c, "x", "")], hash).blobs
  {
    var first, second := Storing(c, "x.tmp", ".tmp"), Storing(c, "x", "");
    FirstPut(first, hash);
    OneMorePut([first], second, hash);
    assert [first] + [second] == [first, second];
    assert Key(hash(c), "").ext + ".tmp" == ".tmp";
  }

  lemma TwoPuts(first: Call, second: Call, hash: Bytes -> string)
    requires first.folder.Some? && first.links && second.folder.Some? && second.links
    requires PlaceOf(first) != PlaceOf(second) && hash(first.content) != hash(second.content)
    ensures After([first, second], hash) ==
            Store(map[Key(hash(first.content), first.ext) := 0, Key(hash(second.content), second.ext) := 1],
                  map[PlaceOf(first) := 0, PlaceOf(second) := 1], [first.content, second.content])
  {
    FirstPut(first, hash);
    OneMorePut([first], second, hash);
    assert [first] + [second] == [first, second];
    assert [first.content] + [second.content] == [first.content, second.content];
  }

  /** Three shots in one folder: the second is asked for by the name the third
      would be given, so the third is nowhere in the folder. */
  lemma EvidenceCanBeLost(a: Bytes, b: Bytes, c: Bytes, hash: Bytes -> string)
    requires a != c && b != c
    requires hash(a) != hash(b) && hash(b) != hash(c) && hash(a) != hash(c)
    ensures var calls := [Call(a, "", "x", Some("s"), true),
                          Call(b, "", Disambiguated("x", Tag(hash(c))), Some("s"), true),
                          Call(c, "", "x", Some("s"), true)];
            !IsFiled(After(calls, hash), calls[2], hash)
  {
    var first := Call(a, "", "x", Some("s"), true);
    var second := Call(b, "", Disambiguated("x", Tag(hash(c))), Some("s"), true);
    var third := Call(c, "", "x", Some("s"), true);
    StemSplits("x");
    assert |Disambiguated("x", Tag(hash(c)))| > |"x"|;
    TwoPuts(first, second, hash);
    var s := After([first, second], hash);
    assert !HasBytes(s, PlaceOf(third), c) && !HasBytes(s, OtherPlaceOf(third, hash), c);
    LostPut(s, third, hash);
    OneMorePut([first, second], third, hash);
    assert [first, second] + [third] == [first, second, third];
  }

  lemma LostPut(s: Store, call: Call, hash: Bytes -> string)
    requires Valid(s, hash) && !Collides(s, call.content, hash) && call.folder.Some?
    requires PlaceOf(call) in s.files && !HasBytes(s, PlaceOf(call), call.content)
    requires OtherPlaceOf(call, hash) in s.files && !HasBytes(s, OtherPlaceOf(call, hash), call.content)
    ensures !IsFiled(PutStep(s, call, hash), call, hash)
  {
    PutFilesItIff(s, call, hash);
  }
}
