/** The launcher's durable state (run_mint.py): the key file, which holds the mint's
    signing key and the values it has committed to, across any number of launches,
    crashes and power cuts.

    The disk is modelled at the level write_secret works at: inodes whose text may or
    may not have reached the disk, a directory as processes see it, and the directory
    as the disk has it. */
module LaunchHistory {
  import opened Wrappers

  // ------------------------------------------------------------------ disk --

  datatype Inode = Inode(text: string, synced: bool)

  datatype Disk = Disk(inodes: map<nat, Inode>, names: map<string, nat>, durable: map<string, nat>, next: nat)

  ghost predicate WellFormed(d: Disk) {
    && (forall n :: n in d.names ==> d.names[n] in d.inodes)
    && (forall n :: n in d.durable ==> d.durable[n] in d.inodes)
    && (forall i :: i in d.inodes ==> i < d.next)
  }

  /** What a process reads, now or after being killed and started again. */
  function Visible(d: Disk, path: string): Option<string> {
    if path in d.names && d.names[path] in d.inodes then Some(d.inodes[d.names[path]].text) else None
  }

  ghost predicate SurvivesIn(d: Disk, dir: map<string, nat>, path: string, c: Option<string>)
    requires WellFormed(d) && (dir == d.names || dir == d.durable)
  {
    if path in dir
    then c.Some? && (d.inodes[dir[path]].synced ==> c.value == d.inodes[dir[path]].text)
    else c == None
  }

  /** What a power cut may leave at `path`: the entry as the disk has it or as it is
      being written, and text that was never synced may be anything. */
  ghost predicate Survives(d: Disk, path: string, c: Option<string>)
    requires WellFormed(d)
  {
    SurvivesIn(d, d.names, path, c) || SurvivesIn(d, d.durable, path, c)
  }

  /** A power cut would leave exactly what is visible. */
  ghost predicate Settled(d: Disk, path: string)
    requires WellFormed(d)
  {
    forall c :: Survives(d, path, c) ==> c == Visible(d, path)
  }

  /** The temporary file beside the target: a dot, its name, and a random part. */
  function TempName(path: string, random: string): (tmp: string)
    ensures tmp != path
  {
    var tmp := "." + path + "." + random + ".tmp";
    assert |tmp| > |path|;
    tmp
  }

  /** O_CREAT | O_EXCL. */
  function Create(d: Disk, name: string): Disk {
    Disk(d.inodes[d.next := Inode("", false)], d.names[name := d.next], d.durable, d.next + 1)
  }

  function Append(d: Disk, i: nat, s: string): Disk
    requires i in d.inodes
  {
    d.(inodes := d.inodes[i := Inode(d.inodes[i].text + s, false)])
  }

  function Fsync(d: Disk, i: nat): Disk
    requires i in d.inodes
  {
    d.(inodes := d.inodes[i := Inode(d.inodes[i].text, true)])
  }

  function Rename(d: Disk, from: string, to: string): Disk
    requires from in d.names
  {
    d.(names := (d.names - {from})[to := d.names[from]])
  }

  function Unlink(d: Disk, name: string): Disk { d.(names := d.names - {name}) }

  function SyncDir(d: Disk): Disk { d.(durable := d.names) }

  /** While the temporary file is being written: the target is untouched. */
  ghost predicate Writing(d0: Disk, d: Disk, tmp: string, path: string, soFar: string) {
    && WellFormed(d) && tmp != path
    && tmp !in d0.names && d.names == d0.names[tmp := d0.next]
    && d0.next in d.inodes && d.inodes[d0.next].text == soFar
    && d.durable == d0.durable
    && (forall i :: i in d0.inodes ==> i in d.inodes && d.inodes[i] == d0.inodes[i])
  }

  lemma {:induction false} WritingStarts(d0: Disk, tmp: string, path: string)
    requires WellFormed(d0) && tmp !in d0.names && tmp != path
    ensures Writing(d0, Create(d0, tmp), tmp, path, "")
  {
  }

  lemma {:induction false} WritingGoesOn(d0: Disk, d: Disk, tmp: string, path: string, soFar: string, s: string)
    requires WellFormed(d0) && Writing(d0, d, tmp, path, soFar)
    ensures Writing(d0, Append(d, d0.next, s), tmp, path, soFar + s)
    ensures var synced := Fsync(d, d0.next);
      Writing(d0, synced, tmp, path, soFar) && synced.inodes[d0.next].synced
  {
  }

  lemma {:induction false} WritingKeepsTarget(d0: Disk, d: Disk, tmp: string, path: string, soFar: string)
    requires WellFormed(d0) && Writing(d0, d, tmp, path, soFar)
    ensures Visible(d, path) == Visible(d0, path)
    ensures forall c :: Survives(d, path, c) <==> Survives(d0, path, c)
  {
    forall c ensures SurvivesIn(d, d.names, path, c) <==> SurvivesIn(d0, d0.names, path, c) { }
    forall c ensures SurvivesIn(d, d.durable, path, c) <==> SurvivesIn(d0, d0.durable, path, c) { }
  }

  /** Then a rename puts that one name in place of the other and touches no other file. */
  lemma {:induction false} WritingElsewhere(d0: Disk, d: Disk, tmp: string, path: string, text: string)
    requires WellFormed(d0) && Writing(d0, d, tmp, path, text)
    ensures tmp in d.names && Rename(d, tmp, path).names == d0.names[path := d0.next]
    ensures forall i :: i in d0.inodes ==> i in d.inodes && d.inodes[i] == d0.inodes[i]
  {
  }

  /** Renaming a synced file over the target: processes see the new text at once, and
      a power cut leaves what it could leave before, or the new whole. */
  lemma {:induction false} RenameIsAtomic(d0: Disk, d: Disk, tmp: string, path: string, text: string)
    requires WellFormed(d0) && Writing(d0, d, tmp, path, text) && d.inodes[d0.next].synced
    ensures tmp in d.names
    ensures var r := Rename(d, tmp, path);
      && WellFormed(r) && Visible(r, path) == Some(text)
      && (forall c :: Survives(r, path, c) ==> Survives(d0, path, c) || c == Some(text))
      && (Settled(d0, path) ==> forall c :: Survives(r, path, c) ==> c == Visible(d0, path) || c == Some(text))
  {
    var r := Rename(d, tmp, path);
    assert r.names[path] == d0.next && r.durable == d0.durable;
    forall c | Survives(r, path, c) ensures Survives(d0, path, c) || c == Some(text) {
      if SurvivesIn(r, r.names, path, c) {
        assert c == Some(text);
      } else {
        assert SurvivesIn(d0, d0.durable, path, c);
      }
    }
  }

  /** Syncing the directory after that leaves only the new. */
  lemma {:induction false} SyncDirSettles(d0: Disk, d: Disk, tmp: string, path: string, text: string)
    requires WellFormed(d0) && Writing(d0, d, tmp, path, text) && d.inodes[d0.next].synced
    ensures var s := SyncDir(Rename(d, tmp, path));
      WellFormed(s) && Visible(s, path) == Some(text) && Settled(s, path)
  {
    var s := SyncDir(Rename(d, tmp, path));
    forall c | Survives(s, path, c) ensures c == Visible(s, path) {
      assert SurvivesIn(s, s.names, path, c);
    }
  }

  /** The fsync before the rename is what makes it so: without it a power cut can
      leave text that is neither. */
  lemma {:induction false} RenameWithoutFsyncTears()
    ensures var d0 := Disk(map[0 := Inode("old", true)], map["k" := 0], map["k" := 0], 1);
      var r := Rename(Append(Create(d0, "t"), 1, "new"), "t", "k");
      WellFormed(d0) && Settled(d0, "k") && WellFormed(r) && Survives(r, "k", Some("n"))
  {
    var d0 := Disk(map[0 := Inode("old", true)], map["k" := 0], map["k" := 0], 1);
    assert "t" != "k" by { assert "t"[0] != "k"[0]; }
    var r := Rename(Append(Create(d0, "t"), 1, "new"), "t", "k");
    assert r.names == map["k" := 1];
    assert SurvivesIn(r, r.names, "k", Some("n"));
  }

  /** And the directory sync is what makes it last.  A process killed between the two
      leaves a settled file exactly when it had nothing new to write; otherwise the next
      launch reads a file that a power cut can still take away. */
  lemma {:induction false} SettledBeforeSyncExactly(d0: Disk, d: Disk, tmp: string, path: string, text: string)
    requires WellFormed(d0) && Settled(d0, path)
    requires Writing(d0, d, tmp, path, text) && d.inodes[d0.next].synced
    ensures var r := Rename(d, tmp, path);
      && WellFormed(r) && Survives(r, path, Visible(d0, path))
      && (Settled(r, path) <==> Visible(d0, path) == Some(text))
  {
    var r := Rename(d, tmp, path);
    RenameIsAtomic(d0, d, tmp, path, text);
    var was := Visible(d0, path);
    var c := if path in d0.durable then Some(d0.inodes[d0.durable[path]].text) else None;
    assert SurvivesIn(d0, d0.durable, path, c);
    assert Survives(d0, path, c);
    assert SurvivesIn(r, r.durable, path, was);
    assert Survives(r, path, was);
    if was == Some(text) {
      forall c | Survives(r, path, c) ensures c == Visible(r, path) { }
    }
  }

  // -------------------------------------------------------------- key file --

  datatype Blob = Blob(private_: string, public_: string, mintId: Option<string>, baseline: Option<string>, prunes: bool)

  datatype Codec = Codec(dumps: Blob -> string, loads: string -> Option<Blob>)

  ghost predicate RoundTrips(c: Codec) {
    forall b :: c.loads(c.dumps(b)) == Some(b)
  }

  /** What the world gets to see of a mint, in order: a descriptor it serves, and a
      deletion of spent records from its database. */
  datatype Event =
    | Published(private_: string, public_: string, mintId: string, baseline: string, prunes: bool)
    | Pruned

  predicate SameMint(a: Event, b: Event) {
    a.Published? && b.Published? ==>
      a.private_ == b.private_ && a.public_ == b.public_ && a.mintId == b.mintId && a.baseline == b.baseline
  }

  /** The history a counterparty can rely on: one key pair, one id and one baseline for
      good, and never a claim to keep spent records once some are gone. */
  ghost predicate Honest(log: seq<Event>) {
    && (forall i, j :: 0 <= i < j < |log| ==> SameMint(log[i], log[j]))
    && (forall i, j :: 0 <= i < j < |log| && log[i].Pruned? && log[j].Published? ==> log[j].prunes)
  }

  /** The key file carries everything the log has committed the mint to. */
  ghost predicate Commits(codec: Codec, c: Option<string>, log: seq<Event>) {
    log != [] ==> c.Some? && codec.loads(c.value).Some? && BlobCommits(codec.loads(c.value).value, log)
  }

  ghost predicate BlobCommits(b: Blob, log: seq<Event>) {
    && (forall i :: 0 <= i < |log| && log[i].Published? ==> Describes(b, log[i]))
    && (forall i :: 0 <= i < |log| && log[i].Pruned? ==> b.prunes)
  }

  predicate Describes(b: Blob, e: Event)
    requires e.Published?
  {
    b.private_ == e.private_ && b.public_ == e.public_ && b.mintId == Some(e.mintId) && b.baseline == Some(e.baseline)
  }

  lemma {:induction false} HonestGrows(b: Blob, log: seq<Event>, e: Event)
    requires Honest(log) && BlobCommits(b, log) && BlobCommits(b, [e])
    requires e.Published? ==> (b.prunes ==> e.prunes)
    ensures Honest(log + [e]) && BlobCommits(b, log + [e])
  {
    var all := log + [e];
    assert [e][0] == e;
    forall i, j | 0 <= i < j < |all| ensures SameMint(all[i], all[j]) {
      if j == |log| && e.Published? && all[i].Published? {
        assert Describes(b, log[i]) && Describes(b, e);
      }
    }
  }

  lemma {:induction false} CommitsBoth(codec: Codec, c: Option<string>, log: seq<Event>, e: Event)
    ensures Commits(codec, c, log + [e]) <==> Commits(codec, c, log) && Commits(codec, c, [e])
  {
    var all := log + [e];
    assert all[|log|] == e && [e][0] == e;
    if c.Some? && codec.loads(c.value).Some? {
      var b := codec.loads(c.value).value;
      assert BlobCommits(b, all) <==> BlobCommits(b, log) && BlobCommits(b, [e]) by {
        assert forall i :: 0 <= i < |log| ==> all[i] == log[i];
      }
    }
  }

  datatype Loading = Loaded(blob: Blob) | Refused | Failed

  /** When load_or_create_keys exits: the file belongs to another id, or was pinned to
      another baseline, or has none and nobody asserted this one. */
  predicate Conflicts(c: Codec, text: Option<string>, mintId: string, baseline: string, pin: bool) {
    text.Some? && c.loads(text.value).Some? &&
    var b := c.loads(text.value).value;
    || (b.mintId.Some? && b.mintId.value != mintId)
    || (b.baseline.Some? && b.baseline.value != baseline)
    || (b.baseline.None? && !pin)
  }

  /** The blob a launch goes on with: the stored keys and pin, or a generated pair only
      where there was no file. */
  predicate LoadedFrom(c: Codec, text: Option<string>, generated: (string, string), b: Blob) {
    match text
    case None => b.private_ == generated.0 && b.public_ == generated.1 && !b.prunes
    case Some(t) =>
      c.loads(t).Some? &&
      var was := c.loads(t).value;
      b.private_ == was.private_ && b.public_ == was.public_ && b.prunes == was.prunes
  }

  predicate PinnedIn(c: Codec, text: Option<string>) {
    text.Some? && c.loads(text.value).Some? && c.loads(text.value).value.prunes
  }

  /** What may become of a key file's text: a new file where there was none, the key pair
      kept, the id and the baseline kept once they are there, the pin kept once it is
      set; and a file that cannot be read is left alone. */
  predicate Grown(c: Codec, was: Option<string>, now: Option<string>) {
    || was == None || now == was
    || (now.Some? && c.loads(was.value).Some? && c.loads(now.value).Some?
        && BlobGrown(c.loads(was.value).value, c.loads(now.value).value))
  }

  predicate BlobGrown(was: Blob, now: Blob) {
    && now.private_ == was.private_ && now.public_ == was.public_
    && (was.mintId.Some? ==> now.mintId == was.mintId) && (was.baseline.Some? ==> now.baseline == was.baseline)
    && (was.prunes ==> now.prunes)
  }

  lemma {:induction false} GrownSame(c: Codec, text: Option<string>)
    ensures Grown(c, text, text)
  {
  }

  lemma {:induction false} GrownOn(c: Codec, a: Option<string>, b: Option<string>, d: Option<string>)
    requires Grown(c, a, b) && Grown(c, b, d)
    ensures Grown(c, a, d)
  {
  }

  /** From one disk to the next the key file has only grown, for the next process and
      whatever of the newer writes a power cut leaves. */
  ghost predicate Kept(c: Codec, path: string, powerCuts: bool, d0: Disk, d: Disk)
    requires WellFormed(d0)
  {
    var was := Visible(d0, path);
    && WellFormed(d) && Grown(c, was, Visible(d, path))
    && (powerCuts ==> forall text :: Survives(d, path, text) ==> Survives(d0, path, text) || Grown(c, was, text))
  }

  lemma {:induction false} KeptOn(c: Codec, path: string, powerCuts: bool, d0: Disk, d1: Disk, d2: Disk)
    requires WellFormed(d0) && Kept(c, path, powerCuts, d0, d1) && Kept(c, path, powerCuts, d1, d2)
    ensures Kept(c, path, powerCuts, d0, d2)
  {
    var was, then_ := Visible(d0, path), Visible(d1, path);
    GrownOn(c, was, then_, Visible(d2, path));
    forall text | powerCuts && Survives(d2, path, text) ensures Survives(d0, path, text) || Grown(c, was, text) {
      if !Survives(d1, path, text) { GrownOn(c, was, then_, text); }
    }
  }

  /** What the rounds of a mint's service show: its descriptor, or a deletion. */
  function Rounds(e: Event, pruneOn: bool, rounds: seq<bool>): seq<Event> {
    seq(|rounds|, k requires 0 <= k < |rounds| => if pruneOn && rounds[k] then Pruned else e)
  }

  /** The command line, as far as it bears on the key file. */
  datatype Flags = Flags(mintId: string, baseline: string, pin: bool, prunes: bool)

  /** What a launch draws: the pair a new mint would get, and two temporary names. */
  datatype Chance = Chance(keys: (string, string), first: string, second: string)

  datatype Lifetime = Lifetime(flags: Flags, chance: Chance, rounds: seq<bool>)

  /** What a launch in which nothing fails makes of the blob in the key file, if there is
      one, and what it shows: nothing when the blob is another mint's. */
  function Lived(s: Option<Blob>, l: Lifetime): (Option<Blob>, seq<Event>) {
    var id, base := l.flags.mintId, l.flags.baseline;
    if s.Some? && ((s.value.mintId.Some? && s.value.mintId.value != id)
        || (if s.value.baseline.Some? then s.value.baseline.value != base else !l.flags.pin)) then (s, [])
    else
      var (secret, key) := if s.Some? then (s.value.private_, s.value.public_) else l.chance.keys;
      var prunes := l.flags.prunes || (s.Some? && s.value.prunes);
      var e := Published(secret, key, id, base, prunes);
      (Some(Blob(secret, key, Some(id), Some(base), prunes)), [e] + Rounds(e, l.flags.prunes, l.rounds))
  }

  function AllLived(s: Option<Blob>, ls: seq<Lifetime>): (Option<Blob>, seq<Event>) {
    if ls == [] then (s, [])
    else
      var (t, shown) := AllLived(s, ls[..|ls| - 1]);
      var (u, more) := Lived(t, ls[|ls| - 1]);
      (u, shown + more)
  }

  /** What happens between one launch and the next. */
  datatype Between = Nothing | WrittenBack | Cut

  /** Of the first n launches, each that was torn is followed by a write-back or a cut. */
  predicate Settles(torn: seq<bool>, between: seq<Between>, n: int)
    requires n <= |torn| && n <= |between|
  {
    forall i | 0 <= i < n :: torn[i] ==> between[i] != Nothing
  }

  /** What a launch with these flags may add to the history. */
  predicate Legitimate(e: Event, mintId: string, baseline: string, pruneOn: bool, pinned: bool) {
    match e
    case Pruned => pruneOn
    case Published(_, _, id, base, prunes) => id == mintId && base == baseline && (prunes <==> pruneOn || pinned)
  }

  /** What an unsettled file comes to.  A first launch is killed between the rename and the
      sync; the next one finds the file, publishes its keys, and the power fails; the one
      after that finds no file and publishes others. */
  lemma {:induction false} TwoKeyPairsPublished(
    codec: Codec, d0: Disk, d: Disk, tmp: string, path: string, b1: Blob, b2: Blob, e1: Event, e2: Event)
    requires RoundTrips(codec) && WellFormed(d0) && Settled(d0, path) && Visible(d0, path) == None
    requires Writing(d0, d, tmp, path, codec.dumps(b1)) && d.inodes[d0.next].synced
    requires e1.Published? && Describes(b1, e1) && e2.Published? && Describes(b2, e2)
    requires b1.private_ != b2.private_ && !b2.prunes
    ensures var r := Rename(d, tmp, path);
      && WellFormed(r) && LoadedFrom(codec, Visible(r, path), (b2.private_, b2.public_), b1)
      && Survives(r, path, None) && LoadedFrom(codec, None, (b2.private_, b2.public_), b2)
      && !Honest([e1, e2])
  {
    SettledBeforeSyncExactly(d0, d, tmp, path, codec.dumps(b1));
    RenameIsAtomic(d0, d, tmp, path, codec.dumps(b1));
    assert codec.loads(codec.dumps(b1)) == Some(b1);
    var log := [e1, e2];
    assert !SameMint(log[0], log[1]);
  }

  class Host {
    const codec: Codec
    const path: string
    /** Whether the power may fail; where it may, directory syncs work. */
    const powerCuts: bool
    /** No process is killed and no call fails, but for a temporary name that is taken. */
    const calm: bool
    var disk: Disk
    ghost var log: seq<Event>
    /** Something has been published or pruned that a power cut could have made the key
        file forget. */
    ghost var hasty: bool

    constructor (codec: Codec, path: string, powerCuts: bool, calm: bool, keyFile: Option<string>)
      requires RoundTrips(codec)
      ensures this.codec == codec && this.path == path && this.powerCuts == powerCuts && this.calm == calm
      ensures log == [] && !hasty
      ensures WellFormed(disk) && Visible(disk, path) == keyFile
      ensures Inv() && AtRest() && Sound()
    {
      this.codec, this.path, this.powerCuts, this.calm := codec, path, powerCuts, calm;
      disk := match keyFile
        case None => Disk(map[], map[], map[], 0)
        case Some(text) => Disk(map[0 := Inode(text, true)], map[path := 0], map[path := 0], 1);
      log, hasty := [], false;
    }

    /** After a crash at this very instant, whatever its kind, the key file still
        carries the whole history. */
    ghost predicate Inv() reads this`disk, this`log {
      && RoundTrips(codec) && WellFormed(disk) && Honest(log)
      && Commits(codec, Visible(disk, path), log)
      && (powerCuts ==> forall c :: Survives(disk, path, c) ==> Commits(codec, c, log))
    }

    /** And it does, unless something was published too early. */
    ghost predicate Sound() reads this`disk, this`log, this`hasty {
      RoundTrips(codec) && WellFormed(disk) && (!hasty ==> Inv())
    }

    /** Nothing is still on its way to the disk. */
    ghost predicate AtRest() reads this`disk {
      WellFormed(disk) && (powerCuts ==> Settled(disk, path))
    }

    /** Whatever a power cut may leave carries this event. */
    ghost predicate Vouched(e: Event) reads this`disk
      requires WellFormed(disk)
    {
      powerCuts ==> forall c :: Survives(disk, path, c) ==> Commits(codec, c, [e])
    }

    /** Old or new, whole, for the process and for a power cut. */
    ghost predicate OldOrNew(d0: Disk, text: string) reads this`disk
      requires WellFormed(d0)
    {
      && WellFormed(disk)
      && (Visible(disk, path) == Visible(d0, path) || Visible(disk, path) == Some(text))
      && (powerCuts ==> forall c :: Survives(disk, path, c) ==> Survives(d0, path, c) || c == Some(text))
    }

    /** write_secret.  It may be killed, or a call may fail, between any two of its
        steps; `OldOrNew` holds then, and at the end: a settled file is left the whole old
        or the whole new.  A true result means the new text is in place and, where
        directory syncs work, on the disk.  `torn` says that it was stopped between the
        rename and the directory sync; otherwise a disk at rest is left at rest. */
    method WriteSecret(text: string, random: string) returns (ok: bool, ghost torn: bool)
      requires WellFormed(disk)
      modifies this`disk
      ensures OldOrNew(old(disk), text)
      ensures ok ==> Visible(disk, path) == Some(text) && AtRest()
      ensures torn ==> !ok && Visible(disk, path) == Some(text)
      ensures old(AtRest()) && !torn ==> AtRest()
      ensures calm ==> !torn && (ok <==> TempName(path, random) !in old(disk).names) && (!ok ==> disk == old(disk))
      ensures ok ==> disk.names == old(disk).names[path := old(disk).next]
      ensures ok ==> forall i :: i in old(disk).inodes ==> i in disk.inodes && disk.inodes[i] == old(disk).inodes[i]
    {
      hide Writing, WellFormed, Survives, Visible;
      ghost var d0 := disk;
      torn := false;
      var tmp := TempName(path, random);
      // O_EXCL: a name that is taken is an error.
      var stop: bool := *;
      if (stop && !calm) || tmp in disk.names { return false, false; }
      WritingStarts(d0, tmp, path);
      disk := Create(disk, tmp);
      ok := Fill(d0, text, tmp);
      if !ok { return; }
      stop := *;
      if stop && !calm {
        Cleanup(d0, tmp, text);
        return false, false;
      }
      WritingElsewhere(d0, disk, tmp, path, text);
      RenameIsAtomic(d0, disk, tmp, path, text);
      SyncDirSettles(d0, disk, tmp, path, text);
      disk := Rename(disk, tmp, path);
      stop := *;
      if stop && !calm { return false, true; }
      var synced: bool := *;
      if synced || powerCuts || calm { disk := SyncDir(disk); }
      ok := true;
    }

    /** The bytes, in as many writes as it takes, then the fsync. */
    method Fill(ghost d0: Disk, text: string, tmp: string) returns (ok: bool)
      requires WellFormed(d0) && Writing(d0, disk, tmp, path, "")
      modifies this`disk
      ensures ok ==> Writing(d0, disk, tmp, path, text) && disk.inodes[d0.next].synced
      ensures calm ==> ok
      ensures !ok ==> WellFormed(disk) && Visible(disk, path) == Visible(d0, path)
      ensures !ok ==> forall c :: Survives(disk, path, c) ==> Survives(d0, path, c)
    {
      hide Survives, Visible;
      var i := disk.names[tmp];
      var done := 0;
      while done < |text|
        invariant 0 <= done <= |text| && Writing(d0, disk, tmp, path, text[..done])
      {
        var n: int := *;
        var stop: bool := *;
        if calm && (n < 1 || n > |text| - done) { n := |text| - done; }
        if (stop && !calm) || n < 1 || n > |text| - done {
          Cleanup(d0, tmp, text[..done]);
          return false;
        }
        assert text[..done] + text[done..done + n] == text[..done + n];
        WritingGoesOn(d0, disk, tmp, path, text[..done], text[done..done + n]);
        disk := Append(disk, i, text[done..done + n]);
        done := done + n;
      }
      assert text[..done] == text;
      var stop: bool := *;
      if stop && !calm {
        Cleanup(d0, tmp, text);
        return false;
      }
      WritingGoesOn(d0, disk, tmp, path, text, "");
      disk := Fsync(disk, i);
      return true;
    }

    /** The except clause: the temporary file goes, if the process lives to do it. */
    method Cleanup(ghost d0: Disk, tmp: string, ghost soFar: string)
      requires WellFormed(d0) && Writing(d0, disk, tmp, path, soFar)
      modifies this`disk
      ensures WellFormed(disk) && Visible(disk, path) == Visible(d0, path)
      ensures forall c :: Survives(disk, path, c) ==> Survives(d0, path, c)
    {
      WritingKeepsTarget(d0, disk, tmp, path, soFar);
      var killed: bool := *;
      if !killed {
        ghost var d := disk;
        disk := Unlink(disk, tmp);
        forall c | Survives(disk, path, c) ensures Survives(d, path, c) {
          if SurvivesIn(disk, disk.names, path, c) { assert SurvivesIn(d, d.names, path, c); }
        }
      }
    }

    /** A write that loses nothing the history has committed to keeps the invariant,
        crash or no crash. */
    lemma {:induction false} WriteKeepsInv(d0: Disk, b: Blob)
      requires RoundTrips(codec) && WellFormed(d0) && Honest(log) && OldOrNew(d0, codec.dumps(b))
      requires Commits(codec, Visible(d0, path), log) && BlobCommits(b, log)
      requires powerCuts ==> forall c :: Survives(d0, path, c) ==> Commits(codec, c, log)
      ensures Inv()
    {
      assert codec.loads(codec.dumps(b)) == Some(b);
    }

    /** The key file's blob, for a process that reads it now. */
    ghost predicate Holds(b: Blob) reads this`disk {
      Visible(disk, path).Some? && codec.loads(Visible(disk, path).value) == Some(b)
    }

    /** load_or_create_keys.  `generated` is the pair a new mint would get. */
    method LoadOrCreate(mintId: string, baseline: string, pin: bool, generated: (string, string), random: string)
      returns (r: Loading, ghost torn: bool)
      requires Sound()
      modifies this`disk
      ensures Sound() && Kept(codec, path, powerCuts, old(disk), disk)
      ensures (torn ==> r.Failed?) && (old(AtRest()) && !torn ==> AtRest())
      ensures r.Loaded? ==>
        && Holds(r.blob)
        && r.blob.mintId == Some(mintId) && r.blob.baseline == Some(baseline)
        && LoadedFrom(codec, old(Visible(disk, path)), generated, r.blob)
      ensures r.Refused? <==> Conflicts(codec, old(Visible(disk, path)), mintId, baseline, pin)
      ensures r.Refused? ==> disk == old(disk)
      ensures calm && TempName(path, random) !in old(disk).names ==> !torn && (r.Failed? <==> Unreadable(old(disk)))
      ensures calm ==> OnlyTheKeyFile(old(disk), disk)
    {
      hide Survives, Honest, Writing, WellFormed;
      torn := false;
      NothingWritten();
      var text := Visible(disk, path);
      if text.Some? {
        var parsed := codec.loads(text.value);
        if parsed.None? { return Failed, false; }
        var b := parsed.value;
        if b.mintId.Some? && b.mintId.value != mintId { return Refused, false; }
        if b.baseline.Some? && b.baseline.value != baseline { return Refused, false; }
        if b.baseline.None? {
          if !pin { return Refused, false; }
          b := b.(mintId := Some(mintId), baseline := Some(baseline));
        } else if b.mintId.None? {
          b := b.(mintId := Some(mintId));
        } else {
          return Loaded(b), false;
        }
        var ok;
        ok, torn := Save(b, random);
        return if ok then Loaded(b) else Failed, torn;
      }
      var b := Blob(generated.0, generated.1, Some(mintId), Some(baseline), false);
      var ok;
      ok, torn := Save(b, random);
      return if ok then Loaded(b) else Failed, torn;
    }

    /** There is a file, and it is no key file. */
    ghost predicate Unreadable(d: Disk) {
      Visible(d, path).Some? && codec.loads(Visible(d, path).value).None?
    }

    /** No other name has come or gone, or means another file. */
    ghost predicate OnlyTheKeyFile(d0: Disk, d: Disk) {
      && d.names - {path} == d0.names - {path}
      && forall i :: i in d0.inodes ==> i in d.inodes && d.inodes[i] == d0.inodes[i]
    }

    /** write_secret_json. */
    method Save(b: Blob, random: string) returns (ok: bool, ghost torn: bool)
      requires Sound() && (!hasty ==> BlobCommits(b, log))
      requires Grown(codec, Visible(disk, path), Some(codec.dumps(b)))
      modifies this`disk
      ensures Sound() && (ok ==> AtRest() && Holds(b))
      ensures Kept(codec, path, powerCuts, old(disk), disk)
      ensures (torn ==> !ok) && (old(AtRest()) && !torn ==> AtRest())
      ensures calm ==> !torn && (ok <==> TempName(path, random) !in old(disk).names)
      ensures ok || calm ==> OnlyTheKeyFile(old(disk), disk)
    {
      ghost var d0 := disk;
      ok, torn := WriteSecret(codec.dumps(b), random);
      if !hasty { WriteKeepsInv(d0, b); }
      assert codec.loads(codec.dumps(b)) == Some(b);
    }

    lemma {:induction false} NothingWritten()
      requires WellFormed(disk)
      ensures Kept(codec, path, powerCuts, disk, disk)
    {
    }

    /** pin_retention. */
    method PinRetention(ghost held: Blob, random: string) returns (ok: bool, ghost torn: bool)
      requires Sound() && Holds(held)
      modifies this`disk
      ensures Sound() && Kept(codec, path, powerCuts, old(disk), disk)
      ensures ok ==> Holds(held.(prunes := true))
      ensures (torn ==> !ok) && (old(AtRest()) && !torn ==> AtRest())
      ensures calm && TempName(path, random) !in old(disk).names ==> ok
      ensures ok || calm ==> OnlyTheKeyFile(old(disk), disk)
    {
      var b := codec.loads(Visible(disk, path).value).value;
      NothingWritten();
      if b.prunes { return true, false; }
      if !hasty { assert Commits(codec, Visible(disk, path), log); }
      ok, torn := Save(b.(prunes := true), random);
    }

    /** The world sees something the key file vouches for.  The invariant survives it
        exactly when everything that can survive a power cut vouches for it too; a file at
        rest does. */
    ghost method Note(b: Blob, e: Event)
      requires Sound() && Holds(b) && BlobCommits(b, [e])
      requires e.Published? ==> (b.prunes ==> e.prunes)
      modifies this`log, this`hasty
      ensures Sound() && log == old(log) + [e] && hasty == (old(hasty) || !Vouched(e))
      ensures old(Inv()) ==> (Inv() <==> Vouched(e))
      ensures AtRest() ==> Vouched(e)
    {
      var was := log;
      if Inv() {
        HonestGrows(b, log, e);
        forall c ensures Commits(codec, c, log + [e]) <==> Commits(codec, c, log) && Commits(codec, c, [e]) {
          CommitsBoth(codec, c, log, e);
        }
      }
      hasty := hasty || !Vouched(e);
      log := log + [e];
    }

    /** While it lives: the descriptor is served, and spent records are deleted if that
        is on and the round is for it. */
    method ServeAndPrune(ghost b: Blob, ghost e: Event, pruneOn: bool, rounds: seq<bool>)
      requires Sound() && Holds(b) && e.Published? && Describes(b, e)
      requires (pruneOn ==> b.prunes) && (b.prunes ==> e.prunes)
      modifies this`log, this`hasty
      ensures Sound() && (old(hasty) ==> hasty) && (AtRest() ==> hasty == old(hasty))
      ensures log == old(log) + Rounds(e, pruneOn, rounds)
    {
      hide Survives, Honest, Commits, WellFormed, Visible, Inv, Vouched;
      ghost var before := log;
      for i := 0 to |rounds|
        invariant Sound() && Holds(b)
        invariant (old(hasty) ==> hasty) && (AtRest() ==> hasty == old(hasty))
        invariant log == before + Rounds(e, pruneOn, rounds[..i])
      {
        assert rounds[..i + 1] == rounds[..i] + [rounds[i]];
        if pruneOn && rounds[i] {
          assert [Pruned][0] == Pruned;
          Note(b, Pruned);
        } else {
          assert [e][0] == e;
          Note(b, e);
        }
        assert Rounds(e, pruneOn, rounds[..i + 1])
            == Rounds(e, pruneOn, rounds[..i]) + [if pruneOn && rounds[i] then Pruned else e];
      }
      assert rounds[..|rounds|] == rounds;
    }

    /** One process lifetime, from whatever state the disk is in.  Every `lives` is a
        point where it may be killed or a call may fail; the descriptor is served from the
        bind on.  All it publishes describes the one blob it loaded, and says about spent
        records: true exactly when they are being deleted or the file was pinned.  The
        key file only grows; and a disk at rest is left at rest, unless a write was
        `torn`, which ends the launch.  A launch that conflicts with the file changes
        nothing; one that does not, and in which nothing fails, runs to the end. */
    method Launch(flags: Flags, chance: Chance, rounds: seq<bool>) returns (ghost loaded: Option<Blob>, ghost torn: bool)
      requires Sound()
      modifies this`disk, this`log, this`hasty
      ensures Sound() && old(log) <= log && (old(hasty) ==> hasty)
      ensures old(AtRest()) ==> hasty == old(hasty) && (!torn ==> AtRest())
      ensures Kept(codec, path, powerCuts, old(disk), disk) && (torn ==> |log| <= |old(log)| + 1)
      ensures |log| > |old(log)| ==>
        loaded.Some? && LoadedFrom(codec, old(Visible(disk, path)), chance.keys, loaded.value)
      ensures forall k :: |old(log)| <= k < |log| ==>
        && Legitimate(log[k], flags.mintId, flags.baseline, flags.prunes, PinnedIn(codec, old(Visible(disk, path))))
        && (log[k].Published? ==> Describes(loaded.value, log[k]))
      ensures Conflicts(codec, old(Visible(disk, path)), flags.mintId, flags.baseline, flags.pin) ==>
        log == old(log) && disk == old(disk)
      ensures calm ==> OnlyTheKeyFile(old(disk), disk)
      ensures
        || Conflicts(codec, old(Visible(disk, path)), flags.mintId, flags.baseline, flags.pin)
        || Unreadable(old(disk))
        || (calm && FreshNames(chance, old(disk)) ==>
          && !torn && loaded.Some? && LoadedFrom(codec, old(Visible(disk, path)), chance.keys, loaded.value)
          && Ran(old(log), loaded.value, flags, rounds))
    {
      hide Survives, Honest, Commits, WellFormed, Visible, Inv, Vouched, Kept, Ran;
      loaded, torn := None, false;
      ghost var d0 := disk;
      var r;
      r, torn := LoadOrCreate(flags.mintId, flags.baseline, flags.pin, chance.keys, chance.first);
      if !r.Loaded? { return; }
      loaded := Some(r.blob);
      ghost var d1 := disk;
      assert forall n :: n != path ==> (n in d1.names - {path} <==> n in d1.names);
      torn := Live(r.blob, flags, chance.second, rounds);
      KeptOn(codec, path, powerCuts, d0, d1, disk);
    }

    /** From the loaded key file on. */
    method Live(b: Blob, flags: Flags, random: string, rounds: seq<bool>) returns (ghost torn: bool)
      requires Sound() && Holds(b) && b.mintId == Some(flags.mintId) && b.baseline == Some(flags.baseline)
      modifies this`disk, this`log, this`hasty
      ensures Sound() && old(log) <= log && (old(hasty) ==> hasty)
      ensures old(AtRest()) ==> hasty == old(hasty) && (!torn ==> AtRest())
      ensures Kept(codec, path, powerCuts, old(disk), disk) && (torn ==> |log| <= |old(log)| + 1)
      ensures forall k :: |old(log)| <= k < |log| ==>
        && Legitimate(log[k], flags.mintId, flags.baseline, flags.prunes, b.prunes)
        && (log[k].Published? ==> Describes(b, log[k]))
      ensures calm ==> OnlyTheKeyFile(old(disk), disk)
      ensures calm && TempName(path, random) !in old(disk).names ==> !torn && Ran(old(log), b, flags, rounds)
    {
      hide Survives, Honest, Commits, WellFormed, Visible, Inv, Vouched, Kept;
      torn := false;
      NothingWritten();
      var publishes := b.prunes || flags.prunes;
      var lives: bool := *;
      if !lives && !calm { return; }
      ghost var e := Published(b.private_, b.public_, flags.mintId, flags.baseline, publishes);
      assert [e][0] == e;
      Note(b, e);
      lives := *;
      if !lives && !calm { return; }
      if publishes && !b.prunes {
        var ok;
        ok, torn := PinRetention(b, random);
        if !ok { return; }
      }
      ghost var kept := b.(prunes := publishes);
      assert Holds(kept);
      ServeAndPrune(kept, e, flags.prunes, rounds);
    }

    predicate FreshNames(chance: Chance, d: Disk) {
      TempName(path, chance.first) !in d.names && TempName(path, chance.second) !in d.names
    }

    /** A whole lifetime: the descriptor with every claim as it is, first and in every
        round that does not prune, and the same claims in the key file. */
    ghost predicate Ran(was: seq<Event>, loaded: Blob, flags: Flags, rounds: seq<bool>) reads this`disk, this`log {
      var prunes := flags.prunes || loaded.prunes;
      var e := Published(loaded.private_, loaded.public_, flags.mintId, flags.baseline, prunes);
      && log == was + [e] + Rounds(e, flags.prunes, rounds)
      && Holds(Blob(loaded.private_, loaded.public_, Some(flags.mintId), Some(flags.baseline), prunes))
    }

    /** The blob in the key file. */
    ghost function Stored(d: Disk): Option<Blob> {
      var text := Visible(d, path);
      if text.Some? then codec.loads(text.value) else None
    }

    /** The names it needs are free, and the key file, if there is one, can be read. */
    ghost predicate Ready(l: Lifetime, d: Disk) { FreshNames(l.chance, d) && !Unreadable(d) }

    lemma {:induction false} LaunchIsLived(d0: Disk, was: seq<Event>, l: Lifetime, loaded: Blob)
      requires !Unreadable(d0) && !Conflicts(codec, Visible(d0, path), l.flags.mintId, l.flags.baseline, l.flags.pin)
      requires LoadedFrom(codec, Visible(d0, path), l.chance.keys, loaded) && Ran(was, loaded, l.flags, l.rounds)
      ensures (Stored(disk), log) == (Lived(Stored(d0), l).0, was + Lived(Stored(d0), l).1)
      ensures !Unreadable(disk)
    {
      hide Visible, Rounds;
      var prunes := l.flags.prunes || loaded.prunes;
      var e := Published(loaded.private_, loaded.public_, l.flags.mintId, l.flags.baseline, prunes);
      assert was + [e] + Rounds(e, l.flags.prunes, l.rounds) == was + ([e] + Rounds(e, l.flags.prunes, l.rounds));
    }

    /** The kernel gets round to writing everything back. */
    method Writeback()
      requires Sound()
      modifies this`disk
      ensures Sound() && AtRest() && Visible(disk, path) == Visible(old(disk), path)
      ensures disk.names == old(disk).names
    {
      disk := Disk(map i | i in disk.inodes :: Inode(disk.inodes[i].text, true), disk.names, disk.names, disk.next);
      forall c | Survives(disk, path, c) ensures c == Visible(disk, path) {
        assert SurvivesIn(disk, disk.names, path, c);
      }
    }

    /** The power fails and comes back: the key file is one of the things that can
        survive, and everything on the disk now is there for good. */
    method PowerCut()
      requires Sound() && powerCuts
      modifies this`disk
      ensures Sound() && AtRest() && Survives(old(disk), path, Visible(disk, path))
      ensures disk.names.Keys <= {path}
    {
      ghost var d0 := disk;
      var renamed: bool := *;
      var dir := if renamed then disk.names else disk.durable;
      if path in dir {
        var garbled: string := *;
        var was := disk.inodes[dir[path]];
        var text := if was.synced then was.text else garbled;
        disk := Disk(map[0 := Inode(text, true)], map[path := 0], map[path := 0], 1);
      } else {
        disk := Disk(map[], map[], map[], 0);
      }
      assert SurvivesIn(d0, dir, path, Visible(disk, path));
    }

    /** A launch and what follows it.  From a disk at rest, whatever happens, the file has
        grown and nothing was published too early; and unless the launch was torn and
        nothing followed, the disk is at rest again. */
    method LaunchThen(l: Lifetime, next: Between) returns (ghost torn: bool)
      requires Sound()
      modifies this`disk, this`log, this`hasty
      ensures Sound() && old(log) <= log && (old(hasty) ==> hasty)
      ensures old(AtRest()) ==>
        && hasty == old(hasty) && Grown(codec, old(Visible(disk, path)), Visible(disk, path))
        && ((torn && next == Nothing) || AtRest())
      ensures calm && old(AtRest()) && Ready(l, old(disk)) ==>
        && (Stored(disk), log) == (Lived(Stored(old(disk)), l).0, old(log) + Lived(Stored(old(disk)), l).1)
        && AtRest() && !Unreadable(disk)
      ensures calm ==> disk.names.Keys <= old(disk).names.Keys + {path}
    {
      hide Honest, Commits, Inv, Vouched, Grown, SurvivesIn, Lived, Ran;
      ghost var d0, rest, was := disk, AtRest(), log;
      var loaded, t := Launch(l.flags, l.chance, l.rounds);
      torn := t;
      ghost var shown := log;
      assert calm && Ready(l, d0) ==>
        (Stored(disk), shown) == (Lived(Stored(d0), l).0, was + Lived(Stored(d0), l).1) && !Unreadable(disk)
      by {
        if calm && Ready(l, d0) {
          if Conflicts(codec, Visible(d0, path), l.flags.mintId, l.flags.baseline, l.flags.pin) {
            ConflictShowsNothing(d0, l);
            assert was + [] == was;
          } else {
            LaunchIsLived(d0, was, l, loaded.value);
          }
        }
      }
      assert calm ==> disk.names.Keys <= d0.names.Keys + {path} by { NamesStay(d0, disk); }
      assert Kept(codec, path, powerCuts, d0, disk);
      if next == Cut && powerCuts {
        PowerCut();
        if rest { GrownSame(codec, Visible(d0, path)); }
      } else if next == WrittenBack {
        Writeback();
      } else if next == Cut {
        assert AtRest();
      }
    }

    lemma {:induction false} ConflictShowsNothing(d0: Disk, l: Lifetime)
      requires Conflicts(codec, Visible(d0, path), l.flags.mintId, l.flags.baseline, l.flags.pin)
      ensures Lived(Stored(d0), l) == (Stored(d0), [])
    {
    }

    lemma {:induction false} NamesStay(d0: Disk, d: Disk)
      ensures OnlyTheKeyFile(d0, d) ==> d.names.Keys <= d0.names.Keys + {path}
    {
      if OnlyTheKeyFile(d0, d) {
        forall n | n in d.names && n != path ensures n in d0.names { assert n in d.names - {path}; }
      }
    }

    /** Any history: launches with any flags from whatever state the disk is in, each of
        them cut short anywhere, and write-backs and power cuts in between.  Where only
        processes fail, and where every torn launch is followed by a write-back or a cut
        before the next launch, it stays honest to the end and the key file only ever
        grows.  And where nothing fails but the power, everything is shown that the
        launches show one after another, and the key file is what they make of it. */
    method History(ls: seq<Lifetime>, between: seq<Between>) returns (ghost torn: seq<bool>)
      requires Sound() && |ls| == |between|
      modifies this`disk, this`log, this`hasty
      ensures Sound() && old(log) <= log && (old(hasty) ==> hasty) && |torn| == |ls|
      ensures !powerCuts || (old(AtRest()) && Settles(torn, between, |ls| - 1)) ==>
        hasty == old(hasty) && Grown(codec, old(Visible(disk, path)), Visible(disk, path))
      ensures !hasty ==> Honest(log)
      ensures calm && old(AtRest()) && (forall l :: l in ls ==> Ready(l, old(disk))) ==>
        (Stored(disk), log) == (AllLived(Stored(old(disk)), ls).0, old(log) + AllLived(Stored(old(disk)), ls).1)
    {
      hide Honest, Commits, Visible, Vouched, Grown, Survives, Lived, Unreadable, Stored;
      ghost var seen, was, file, rest := log, hasty, Visible(disk, path), AtRest();
      ghost var easy, d0 := calm && rest && forall l :: l in ls ==> Ready(l, disk), disk;
      torn := [];
      assert ls[..0] == [] && seen + [] == seen;
      GrownSame(codec, file);
      for i := 0 to |ls|
        invariant Sound() && seen <= log && (was ==> hasty) && |torn| == i
        invariant !powerCuts || (rest && Settles(torn, between, i - 1)) ==>
          hasty == was && Grown(codec, file, Visible(disk, path))
        invariant !powerCuts || (rest && Settles(torn, between, i)) ==> AtRest()
        invariant easy ==> AtRest() && (i > 0 ==> !Unreadable(disk)) && (i == 0 ==> disk == d0)
        invariant easy ==> disk.names.Keys <= d0.names.Keys + {path}
        invariant easy ==>
          (Stored(disk), log) == (AllLived(Stored(d0), ls[..i]).0, seen + AllLived(Stored(d0), ls[..i]).1)
      {
        ghost var then_, before := Visible(disk, path), torn;
        assert ls[..i + 1][..i] == ls[..i];
        assert easy ==> Ready(ls[i], disk) by { assert ls[i] in ls; }
        ghost var so := AllLived(Stored(d0), ls[..i]);
        ghost var more := Lived(so.0, ls[i]).1;
        assert seen + (so.1 + more) == seen + so.1 + more;
        assert AllLived(Stored(d0), ls[..i + 1]) == (Lived(so.0, ls[i]).0, so.1 + more);
        var t := LaunchThen(ls[i], between[i]);
        torn := torn + [t];
        assert Settles(torn, between, i) ==> Settles(before, between, i) by {
          assert forall j :: 0 <= j < i ==> torn[j] == before[j];
        }
        if Grown(codec, file, then_) && Grown(codec, then_, Visible(disk, path)) {
          GrownOn(codec, file, then_, Visible(disk, path));
        }
      }
      assert ls[..|ls|] == ls;
    }
  }
}
