/** Which built artifacts still have to be uploaded, and which ones PyPI already holds in a form
    that cannot be replaced. */
module PublishPlan {
  import opened Options
  import opened Ordering

  datatype Kind = Wheel | Sdist

  datatype Key = Key(project: string, version: string)

  /** `content` is the digest of an sdist's logical content; wheels have none. */
  datatype Artifact = Artifact(filename: string, key: Key, kind: Kind, sha256: string, content: Option<string>)

  datatype Published = Published(sha256: string, yanked: bool, url: string)

  type Listing = map<string, Published>

  datatype Conflict =
    | YankedFile(artifact: Artifact)
    | DifferentFile(artifact: Artifact)
    | UnexpectedFiles(key: Key, names: set<string>)

  datatype Failure = NoListing(key: Key, time: nat) | NoContent(artifact: Artifact, listing: Listing)

  datatype Planned = Planned(upload: seq<Artifact>, conflicts: seq<Conflict>) | Failed(failure: Failure)

  datatype Verdict = Missing | Same | Yanked | Different | Unreadable

  /** The logical content digest behind a PyPI url, if it can be fetched and has the advertised hash. */
  type Contents = (string, string) -> Option<string>

  /** One artifact against its release's listing. An sdist may differ in bytes and still be the same. */
  function Judge(a: Artifact, files: Listing, content: Contents): Verdict {
    if a.filename !in files then Missing
    else
      var p := files[a.filename];
      if p.yanked then Yanked
      else if a.kind.Sdist? && content(p.url, p.sha256).None? then Unreadable
      else if a.kind.Sdist? && a.content == content(p.url, p.sha256) then Same
      else if p.sha256 != a.sha256 then Different
      else Same
  }

  /** The releases in the order their first artifact comes. */
  function KeysOf(artifacts: seq<Artifact>): (r: seq<Key>)
    ensures forall k :: k in r <==> exists a | a in artifacts :: a.key == k
    ensures Distinct(r)
  {
    if artifacts == [] then []
    else
      var front, last := artifacts[..|artifacts| - 1], artifacts[|artifacts| - 1];
      assert artifacts == front + [last];
      var keys := KeysOf(front);
      if last.key in keys then keys else keys + [last.key]
  }

  type Snapshot = map<Key, Listing>

  predicate Covers(remote: Snapshot, artifacts: seq<Artifact>) { forall a | a in artifacts :: a.key in remote }

  predicate Readable(artifacts: seq<Artifact>, remote: Snapshot, content: Contents)
    requires Covers(remote, artifacts)
  {
    forall a | a in artifacts :: !Judge(a, remote[a.key], content).Unreadable?
  }

  function Uploads(artifacts: seq<Artifact>, remote: Snapshot): (r: seq<Artifact>)
    requires Covers(remote, artifacts)
    ensures forall a :: a in r <==> a in artifacts && a.filename !in remote[a.key]
  {
    if artifacts == [] then []
    else
      var front, last := artifacts[..|artifacts| - 1], artifacts[|artifacts| - 1];
      assert artifacts == front + [last];
      Uploads(front, remote) + if last.filename !in remote[last.key] then [last] else []
  }

  function FileConflict(a: Artifact, files: Listing, content: Contents): seq<Conflict> {
    match Judge(a, files, content)
    case Yanked => [YankedFile(a)]
    case Different => [DifferentFile(a)]
    case _ => []
  }

  function FileConflicts(artifacts: seq<Artifact>, remote: Snapshot, content: Contents): seq<Conflict>
    requires Covers(remote, artifacts)
  {
    if artifacts == [] then []
    else
      var front, last := artifacts[..|artifacts| - 1], artifacts[|artifacts| - 1];
      assert artifacts == front + [last];
      FileConflicts(front, remote, content) + FileConflict(last, remote[last.key], content)
  }

  function Expected(artifacts: seq<Artifact>, key: Key): set<string> {
    set a | a in artifacts && a.key == key :: a.filename
  }

  function ExtraConflict(artifacts: seq<Artifact>, key: Key, files: Listing): seq<Conflict> {
    var extra := files.Keys - Expected(artifacts, key);
    if extra == {} then [] else [UnexpectedFiles(key, extra)]
  }

  function ExtraConflicts(keys: seq<Key>, artifacts: seq<Artifact>, remote: Snapshot): seq<Conflict>
    requires forall k | k in keys :: k in remote
  {
    if keys == [] then []
    else
      var front, last := keys[..|keys| - 1], keys[|keys| - 1];
      assert keys == front + [last];
      ExtraConflicts(front, artifacts, remote) + ExtraConflict(artifacts, last, remote[last])
  }

  /** Every release was read once, in order, and judged against what that one read returned. */
  ghost predicate ReadOnce(keys: seq<Key>, remote: Snapshot, read: (Key, nat) -> Option<Listing>) {
    && (forall k :: k in remote <==> k in keys)
    && forall t | 0 <= t < |keys| :: read(keys[t], t) == Some(remote[keys[t]])
  }

  predicate Explains(f: Failure, artifacts: seq<Artifact>, read: (Key, nat) -> Option<Listing>, content: Contents) {
    match f
    case NoListing(key, time) => read(key, time).None? && exists a | a in artifacts :: a.key == key
    case NoContent(a, listing) => a in artifacts && Judge(a, listing, content).Unreadable?
  }

  /** `publish_plan`. PyPI may answer differently at each read; `read(key, t)` is its answer to
      the `t`-th one. */
  method Plan(artifacts: seq<Artifact>, read: (Key, nat) -> Option<Listing>, content: Contents)
    returns (r: Planned, ghost remote: Snapshot)
    ensures r.Planned? ==>
              && ReadOnce(KeysOf(artifacts), remote, read) && Covers(remote, artifacts)
              && r.upload == Uploads(artifacts, remote)
              && r.conflicts ==
                 FileConflicts(artifacts, remote, content) + ExtraConflicts(KeysOf(artifacts), artifacts, remote)
              && Readable(artifacts, remote, content)
    ensures r.Failed? ==> Explains(r.failure, artifacts, read, content)
  {
    hide KeysOf, Uploads, FileConflicts, ExtraConflicts, ReadOnce, Expected, Readable, Judge, FileConflict;
    var cache: Snapshot := map[];
    var keys: seq<Key> := [];
    var upload: seq<Artifact> := [];
    var conflicts: seq<Conflict> := [];
    NothingPlanned(artifacts, read, content);
    for i := 0 to |artifacts|
      invariant keys == KeysOf(artifacts[..i]) && ReadOnce(keys, cache, read) && Covers(cache, artifacts[..i])
      invariant upload == Uploads(artifacts[..i], cache)
      invariant conflicts == FileConflicts(artifacts[..i], cache, content)
      invariant Readable(artifacts[..i], cache, content)
    {
      var a := artifacts[i];
      ghost var before := cache;
      ghost var known := keys;
      ReadOnceKeys(keys, cache, read);
      if a.key !in cache {
        var listing := read(a.key, |keys|);
        if listing.None? { return Failed(NoListing(a.key, |keys|)), cache; }
        cache := cache[a.key := listing.value];
        keys := keys + [a.key];
      }
      KeysExtend(artifacts, i);
      ReadsExtend(known, a.key, before, cache, read);
      CacheGrows(artifacts[..i], before, cache, content);
      PlanExtends(artifacts, i, cache, content);
      var files := cache[a.key];
      JudgedAs(a, files, content);
      match Judge(a, files, content) {
        case Missing => upload := upload + [a];
        case Yanked => conflicts := conflicts + [YankedFile(a)];
        case Different => conflicts := conflicts + [DifferentFile(a)];
        case Unreadable => return Failed(NoContent(a, files)), cache;
        case Same =>
      }
    }
    assert artifacts[..|artifacts|] == artifacts;
    ReadOnceKeys(keys, cache, read);
    ghost var fileConflicts := conflicts;
    NoExtras(keys, artifacts, cache);
    for t := 0 to |keys|
      invariant forall k | k in keys[..t] :: k in cache
      invariant conflicts == fileConflicts + ExtraConflicts(keys[..t], artifacts, cache)
    {
      ExtraExtends(keys, t, artifacts, cache);
      var unexpected := cache[keys[t]].Keys - Expected(artifacts, keys[t]);
      if unexpected != {} { conflicts := conflicts + [UnexpectedFiles(keys[t], unexpected)]; }
    }
    assert keys[..|keys|] == keys;
    return Planned(upload, conflicts), cache;
  }

  lemma NothingPlanned(artifacts: seq<Artifact>, read: (Key, nat) -> Option<Listing>, content: Contents)
    ensures ReadOnce([], map[], read) && KeysOf(artifacts[..0]) == []
    ensures Uploads(artifacts[..0], map[]) == [] && FileConflicts(artifacts[..0], map[], content) == []
    ensures Readable(artifacts[..0], map[], content)
  {
    assert artifacts[..0] == [];
  }

  lemma NoExtras(keys: seq<Key>, artifacts: seq<Artifact>, remote: Snapshot)
    ensures ExtraConflicts(keys[..0], artifacts, remote) == []
  {
  }

  lemma ReadOnceKeys(keys: seq<Key>, remote: Snapshot, read: (Key, nat) -> Option<Listing>)
    requires ReadOnce(keys, remote, read)
    ensures forall k :: k in remote <==> k in keys
  {
  }

  lemma KeysExtend(artifacts: seq<Artifact>, i: nat)
    requires i < |artifacts|
    ensures var key, keys := artifacts[i].key, KeysOf(artifacts[..i]);
            KeysOf(artifacts[..i + 1]) == if key in keys then keys else keys + [key]
  {
    assert artifacts[..i + 1][..i] == artifacts[..i];
  }

  lemma ReadsExtend(keys: seq<Key>, key: Key, before: Snapshot, after: Snapshot, read: (Key, nat) -> Option<Listing>)
    requires ReadOnce(keys, before, read)
    requires if key in before then after == before
             else read(key, |keys|).Some? && after == before[key := read(key, |keys|).value]
    ensures ReadOnce(if key in before then keys else keys + [key], after, read) && key in after
  {
    forall t | 0 <= t < |keys| ensures read(keys[t], t) == Some(after[keys[t]]) { assert keys[t] in keys; }
  }

  lemma PlanExtends(artifacts: seq<Artifact>, i: nat, remote: Snapshot, content: Contents)
    requires i < |artifacts| && Covers(remote, artifacts[..i + 1])
    ensures Covers(remote, artifacts[..i]) && artifacts[i].key in remote
    ensures artifacts[..i + 1] == artifacts[..i] + [artifacts[i]]
    ensures var a := artifacts[i];
            && Uploads(artifacts[..i + 1], remote) ==
               Uploads(artifacts[..i], remote) + (if a.filename !in remote[a.key] then [a] else [])
            && FileConflicts(artifacts[..i + 1], remote, content) ==
               FileConflicts(artifacts[..i], remote, content) + FileConflict(a, remote[a.key], content)
            && (Readable(artifacts[..i + 1], remote, content) <==>
                  Readable(artifacts[..i], remote, content) && !Judge(a, remote[a.key], content).Unreadable?)
  {
    hide Judge, FileConflict, KeysOf;
    assert artifacts[..i + 1][..i] == artifacts[..i] && artifacts[..i + 1] == artifacts[..i] + [artifacts[i]];
    assert artifacts[i] in artifacts[..i + 1];
    assert forall a | a in artifacts[..i] :: a in artifacts[..i + 1];
  }

  lemma JudgedAs(a: Artifact, files: Listing, content: Contents)
    ensures Judge(a, files, content).Missing? <==> a.filename !in files
    ensures FileConflict(a, files, content) ==
            if Judge(a, files, content).Yanked? then [YankedFile(a)]
            else if Judge(a, files, content).Different? then [DifferentFile(a)]
            else []
  {
  }

  lemma ExtraExtends(keys: seq<Key>, t: nat, artifacts: seq<Artifact>, remote: Snapshot)
    requires t < |keys| && forall k | k in keys :: k in remote
    ensures ExtraConflicts(keys[..t + 1], artifacts, remote) ==
            ExtraConflicts(keys[..t], artifacts, remote) + ExtraConflict(artifacts, keys[t], remote[keys[t]])
    ensures keys[..t + 1] == keys[..t] + [keys[t]]
  {
    assert keys[..t + 1][..t] == keys[..t] && keys[..t + 1] == keys[..t] + [keys[t]];
  }

  lemma {:induction false} CacheGrows(artifacts: seq<Artifact>, before: Snapshot, after: Snapshot, content: Contents)
    requires Covers(before, artifacts) && forall k | k in before :: k in after && after[k] == before[k]
    ensures Covers(after, artifacts)
    ensures Uploads(artifacts, before) == Uploads(artifacts, after)
    ensures FileConflicts(artifacts, before, content) == FileConflicts(artifacts, after, content)
    ensures Readable(artifacts, before, content) <==> Readable(artifacts, after, content)
    ensures forall a | a in artifacts :: after[a.key] == before[a.key]
  {
    if artifacts != [] {
      assert forall a | a in artifacts[..|artifacts| - 1] :: a in artifacts;
      CacheGrows(artifacts[..|artifacts| - 1], before, after, content);
    }
  }

  // ------------------------------------------------------------ what a plan means

  function Conflicts(artifacts: seq<Artifact>, remote: Snapshot, content: Contents): seq<Conflict>
    requires Covers(remote, artifacts) && forall k | k in KeysOf(artifacts) :: k in remote
  {
    FileConflicts(artifacts, remote, content) + ExtraConflicts(KeysOf(artifacts), artifacts, remote)
  }

  lemma {:induction false} NoFileConflictsIff(artifacts: seq<Artifact>, remote: Snapshot, content: Contents)
    requires Covers(remote, artifacts)
    ensures FileConflicts(artifacts, remote, content) == [] <==>
            forall a | a in artifacts :: var v := Judge(a, remote[a.key], content); v != Yanked && v != Different
  {
    if artifacts != [] {
      var front, last := artifacts[..|artifacts| - 1], artifacts[|artifacts| - 1];
      assert artifacts == front + [last];
      NoFileConflictsIff(front, remote, content);
    }
  }

  lemma {:induction false} NoExtraConflictsIff(keys: seq<Key>, artifacts: seq<Artifact>, remote: Snapshot)
    requires forall k | k in keys :: k in remote
    ensures ExtraConflicts(keys, artifacts, remote) == [] <==>
            forall k | k in keys :: remote[k].Keys <= Expected(artifacts, k)
  {
    if keys != [] {
      var front, last := keys[..|keys| - 1], keys[|keys| - 1];
      assert keys == front + [last];
      NoExtraConflictsIff(front, artifacts, remote);
      var extra := remote[last].Keys - Expected(artifacts, last);
      assert extra == {} <==> remote[last].Keys <= Expected(artifacts, last) by {
        assert forall f | f in remote[last].Keys && f !in Expected(artifacts, last) :: f in extra;
      }
    }
  }

  /** The published file is the built one: not yanked, and the same bytes or, for an sdist, the same content. */
  predicate Matches(a: Artifact, p: Published, content: Contents) {
    !p.yanked && (p.sha256 == a.sha256 || (a.kind.Sdist? && a.content.Some? && a.content == content(p.url, p.sha256)))
  }

  lemma {:induction false} FileConflictIff(artifacts: seq<Artifact>, remote: Snapshot, content: Contents, c: Conflict)
    requires Covers(remote, artifacts)
    ensures c in FileConflicts(artifacts, remote, content) <==>
            exists a | a in artifacts :: c in FileConflict(a, remote[a.key], content)
  {
    hide Judge;
    if artifacts != [] {
      var front, last := artifacts[..|artifacts| - 1], artifacts[|artifacts| - 1];
      assert artifacts == front + [last];
      FileConflictIff(front, remote, content, c);
    }
  }

  lemma {:induction false} ExtraConflictIff(keys: seq<Key>, artifacts: seq<Artifact>, remote: Snapshot, c: Conflict)
    requires forall k | k in keys :: k in remote
    ensures c in ExtraConflicts(keys, artifacts, remote) <==>
            exists k | k in keys :: c in ExtraConflict(artifacts, k, remote[k])
  {
    hide Expected;
    if keys != [] {
      var front, last := keys[..|keys| - 1], keys[|keys| - 1];
      assert keys == front + [last];
      ExtraConflictIff(front, artifacts, remote, c);
    }
  }

  predicate Released(artifacts: seq<Artifact>, key: Key) { exists a | a in artifacts :: a.key == key }

  predicate Built(artifacts: seq<Artifact>, key: Key, filename: string) {
    exists a | a in artifacts :: a.key == key && a.filename == filename
  }

  /** The conflict is there: a yanked file, one that differs from the built one, or all the files of
      a release that nobody built. */
  ghost predicate Justified(c: Conflict, artifacts: seq<Artifact>, remote: Snapshot, content: Contents)
    requires Covers(remote, artifacts)
  {
    match c
    case YankedFile(a) => a in artifacts && a.filename in remote[a.key] && remote[a.key][a.filename].yanked
    case DifferentFile(a) =>
      && a in artifacts && a.filename in remote[a.key] && !remote[a.key][a.filename].yanked
      && !Matches(a, remote[a.key][a.filename], content)
    case UnexpectedFiles(key, names) =>
      && names != {} && key in remote && Released(artifacts, key)
      && forall n :: n in names <==> n in remote[key] && !Built(artifacts, key, n)
  }

  /** Exactly the conflicts that are there are reported. */
  lemma ConflictMeans(artifacts: seq<Artifact>, remote: Snapshot, content: Contents, c: Conflict)
    requires Covers(remote, artifacts) && forall k | k in KeysOf(artifacts) :: k in remote
    requires Readable(artifacts, remote, content)
    ensures c in Conflicts(artifacts, remote, content) <==>
            Justified(c, artifacts, remote, content)
  {
    hide FileConflicts, ExtraConflicts;
    FileConflictIff(artifacts, remote, content, c);
    ExtraConflictIff(KeysOf(artifacts), artifacts, remote, c);
    match c
    case UnexpectedFiles(key, names) =>
      if Released(artifacts, key) {
        assert key in KeysOf(artifacts);
        ExtraNames(artifacts, key, remote[key], names);
      }
    case _ =>
  }

  lemma ExtraNames(artifacts: seq<Artifact>, key: Key, files: Listing, names: set<string>)
    ensures UnexpectedFiles(key, names) in ExtraConflict(artifacts, key, files) <==>
            && names != {}
            && forall n :: n in names <==> n in files && !Built(artifacts, key, n)
  {
    var extra := files.Keys - Expected(artifacts, key);
    assert forall n :: n in Expected(artifacts, key) <==> Built(artifacts, key, n);
    if forall n :: n in names <==> n in extra { assert names == extra; }
  }

  /** No conflicts means exactly that the uploads complete every release: what PyPI holds and
      what will be uploaded are disjoint, together are the built files and no others, and
      everything PyPI holds is the built file. */
  lemma NoConflictsIffUploadsComplete(artifacts: seq<Artifact>, remote: Snapshot, content: Contents)
    requires Covers(remote, artifacts) && forall k :: k in remote <==> k in KeysOf(artifacts)
    requires Readable(artifacts, remote, content)
    ensures Conflicts(artifacts, remote, content) == [] <==>
            && (forall k | k in remote ::
                  && remote[k].Keys !! Expected(Uploads(artifacts, remote), k)
                  && remote[k].Keys + Expected(Uploads(artifacts, remote), k) == Expected(artifacts, k))
            && (forall a | a in artifacts && a.filename in remote[a.key] ::
                  Matches(a, remote[a.key][a.filename], content))
  {
    hide KeysOf, Uploads, FileConflicts, ExtraConflicts;
    NoFileConflictsIff(artifacts, remote, content);
    NoExtraConflictsIff(KeysOf(artifacts), artifacts, remote);
    forall a | a in artifacts && a.filename in remote[a.key]
      ensures Matches(a, remote[a.key][a.filename], content) <==>
              var v := Judge(a, remote[a.key], content); v != Yanked && v != Different
    {}
    forall k | k in remote
      ensures remote[k].Keys <= Expected(artifacts, k) <==>
              && remote[k].Keys !! Expected(Uploads(artifacts, remote), k)
              && remote[k].Keys + Expected(Uploads(artifacts, remote), k) == Expected(artifacts, k)
    {
      var up := Expected(Uploads(artifacts, remote), k);
      assert remote[k].Keys !! up && up <= Expected(artifacts, k);
      assert forall f | f in Expected(artifacts, k) && f !in remote[k] :: f in up;
    }
  }

  function Accused(conflicts: seq<Conflict>): (r: seq<Artifact>)
  {
    if conflicts == [] then []
    else Accused(conflicts[..|conflicts| - 1]) +
         var last := conflicts[|conflicts| - 1]; if last.UnexpectedFiles? then [] else [last.artifact]
  }

  function Settled(artifacts: seq<Artifact>, remote: Snapshot, content: Contents): (r: seq<Artifact>)
    requires Covers(remote, artifacts)
    ensures forall a :: a in r <==> a in artifacts && Judge(a, remote[a.key], content).Same?
  {
    if artifacts == [] then []
    else
      var front, last := artifacts[..|artifacts| - 1], artifacts[|artifacts| - 1];
      assert artifacts == front + [last];
      Settled(front, remote, content) + if Judge(last, remote[last.key], content).Same? then [last] else []
  }

  /** Every artifact is to be uploaded, accused of a conflict, or already published as it is,
      and only one of the three. */
  lemma {:induction false} EveryArtifactOnce(artifacts: seq<Artifact>, remote: Snapshot, content: Contents)
    requires Covers(remote, artifacts)
    requires Readable(artifacts, remote, content)
    ensures multiset(Uploads(artifacts, remote)) + multiset(Accused(FileConflicts(artifacts, remote, content))) +
            multiset(Settled(artifacts, remote, content)) == multiset(artifacts)
  {
    hide Uploads, FileConflicts, Settled, Accused, FileConflict;
    if artifacts == [] { NoArtifacts(remote, content); }
    else {
      var k := |artifacts| - 1;
      var front, last := artifacts[..k], artifacts[k];
      assert artifacts[..k + 1] == artifacts;
      PlanExtends(artifacts, k, remote, content);
      assert forall a | a in front :: a in artifacts;
      EveryArtifactOnce(front, remote, content);
      SettledExtends(artifacts, remote, content);
      AccusedExtends(FileConflicts(front, remote, content), last, remote[last.key], content);
      assert last in artifacts;
      assert Uploads(front, remote) + [] == Uploads(front, remote);
      assert Settled(front, remote, content) + [] == Settled(front, remote, content);
      assert Accused(FileConflicts(front, remote, content)) + [] == Accused(FileConflicts(front, remote, content));
      OneMore(Uploads(front, remote), Accused(FileConflicts(front, remote, content)),
              Settled(front, remote, content), front, last,
              Uploads(artifacts, remote), Accused(FileConflicts(artifacts, remote, content)),
              Settled(artifacts, remote, content));
    }
  }

  lemma NoArtifacts(remote: Snapshot, content: Contents)
    ensures Uploads([], remote) == [] && Accused(FileConflicts([], remote, content)) == []
              && Settled([], remote, content) == []
  {
  }

  lemma OneMore<T>(a: seq<T>, b: seq<T>, c: seq<T>, all: seq<T>, x: T, newA: seq<T>, newB: seq<T>, newC: seq<T>)
    requires multiset(a) + multiset(b) + multiset(c) == multiset(all)
    requires || (newA == a + [x] && newB == b && newC == c)
             || (newA == a && newB == b + [x] && newC == c)
             || (newA == a && newB == b && newC == c + [x])
    ensures multiset(newA) + multiset(newB) + multiset(newC) == multiset(all + [x])
  {
  }

  lemma SettledExtends(artifacts: seq<Artifact>, remote: Snapshot, content: Contents)
    requires artifacts != [] && Covers(remote, artifacts)
    ensures var front, last := artifacts[..|artifacts| - 1], artifacts[|artifacts| - 1];
            && Covers(remote, front) && last.key in remote
            && Settled(artifacts, remote, content) ==
               Settled(front, remote, content) + if Judge(last, remote[last.key], content).Same? then [last] else []
  {
    hide Judge;
    var front, last := artifacts[..|artifacts| - 1], artifacts[|artifacts| - 1];
    assert artifacts == front + [last];
    assert forall a | a in front :: a in artifacts;
  }

  lemma AccusedExtends(before: seq<Conflict>, a: Artifact, files: Listing, content: Contents)
    ensures var v := Judge(a, files, content);
            Accused(before + FileConflict(a, files, content)) ==
            Accused(before) + if v.Yanked? || v.Different? then [a] else []
  {
    var one := FileConflict(a, files, content);
    if one != [] { assert (before + one)[..|before|] == before; }
    else { assert before + one == before; }
  }

  // ------------------------------------------------------------------ after uploading

  predicate UniqueFilenames(artifacts: seq<Artifact>) {
    forall a, b | a in artifacts && b in artifacts && a.filename == b.filename :: a == b
  }

  /** What the uploads of one release add to its listing. */
  function Landed(uploads: seq<Artifact>, key: Key, url: string -> string): (r: Listing)
    requires UniqueFilenames(uploads)
    ensures forall a | a in uploads && a.key == key ::
              a.filename in r && r[a.filename] == Published(a.sha256, false, url(a.filename))
    ensures forall f | f in r :: exists a | a in uploads :: a.key == key && a.filename == f
  {
    map a | a in uploads && a.key == key :: a.filename := Published(a.sha256, false, url(a.filename))
  }

  /** PyPI once every planned upload has landed. */
  function AfterUploads(artifacts: seq<Artifact>, remote: Snapshot, url: string -> string): Snapshot
    requires Covers(remote, artifacts) && UniqueFilenames(artifacts)
  {
    map k | k in remote :: remote[k] + Landed(Uploads(artifacts, remote), k, url)
  }

  lemma {:induction false} SettledNeedsNothing(artifacts: seq<Artifact>, remote: Snapshot, content: Contents)
    requires Covers(remote, artifacts) && forall a | a in artifacts :: Judge(a, remote[a.key], content).Same?
    ensures Uploads(artifacts, remote) == []
  {
    if artifacts != [] {
      assert forall a | a in artifacts[..|artifacts| - 1] :: a in artifacts;
      SettledNeedsNothing(artifacts[..|artifacts| - 1], remote, content);
    }
  }

  lemma UploadedIsSame(artifacts: seq<Artifact>, remote: Snapshot, content: Contents, url: string -> string)
    requires Covers(remote, artifacts) && UniqueFilenames(artifacts)
    requires forall a | a in artifacts :: Judge(a, remote[a.key], content) in {Missing, Same}
    requires forall a | a in Uploads(artifacts, remote) && a.kind.Sdist? :: content(url(a.filename), a.sha256).Some?
    ensures var after := AfterUploads(artifacts, remote, url);
            forall a | a in artifacts :: a.key in after && Judge(a, after[a.key], content).Same?
  {
    hide Uploads, Landed;
    var after := AfterUploads(artifacts, remote, url);
    forall a | a in artifacts ensures a.key in after && Judge(a, after[a.key], content).Same? {
      if a.filename in remote[a.key] {
        assert a.filename !in Landed(Uploads(artifacts, remote), a.key, url);
        assert after[a.key][a.filename] == remote[a.key][a.filename];
      } else {
        assert a in Uploads(artifacts, remote);
        assert after[a.key][a.filename] == Published(a.sha256, false, url(a.filename));
      }
    }
  }

  lemma NothingExtra(artifacts: seq<Artifact>, remote: Snapshot, url: string -> string)
    requires Covers(remote, artifacts) && UniqueFilenames(artifacts)
    ensures var after := AfterUploads(artifacts, remote, url);
            && after.Keys == remote.Keys
            && forall k | k in remote && remote[k].Keys <= Expected(artifacts, k) ::
                 after[k].Keys <= Expected(artifacts, k)
  {
    hide Uploads, Landed;
    var after := AfterUploads(artifacts, remote, url);
    forall k, f | k in remote && remote[k].Keys <= Expected(artifacts, k) && f in after[k]
      ensures f in Expected(artifacts, k)
    {
      if f in Landed(Uploads(artifacts, remote), k, url) {}
      else { assert f in remote[k].Keys; }
    }
  }

  /** Planning again after the uploads leaves nothing to do and nothing to complain about. */
  lemma RerunHasNothingToDo(artifacts: seq<Artifact>, remote: Snapshot, content: Contents, url: string -> string)
    requires Covers(remote, artifacts) && UniqueFilenames(artifacts)
    requires forall k :: k in remote <==> k in KeysOf(artifacts)
    requires Readable(artifacts, remote, content)
    requires Conflicts(artifacts, remote, content) == []
    requires forall a | a in Uploads(artifacts, remote) && a.kind.Sdist? :: content(url(a.filename), a.sha256).Some?
    ensures var after := AfterUploads(artifacts, remote, url);
            && Covers(after, artifacts) && (forall k :: k in after <==> k in KeysOf(artifacts))
            && Uploads(artifacts, after) == [] && Conflicts(artifacts, after, content) == []
            && forall a | a in artifacts :: Judge(a, after[a.key], content).Same?
  {
    hide KeysOf, Uploads, FileConflicts, ExtraConflicts, Judge, AfterUploads;
    var after := AfterUploads(artifacts, remote, url);
    NoFileConflictsIff(artifacts, remote, content);
    NoExtraConflictsIff(KeysOf(artifacts), artifacts, remote);
    UploadedIsSame(artifacts, remote, content, url);
    SettledNeedsNothing(artifacts, after, content);
    NoFileConflictsIff(artifacts, after, content);
    NoExtraConflictsIff(KeysOf(artifacts), artifacts, after);
    NothingExtra(artifacts, remote, url);
  }
}
