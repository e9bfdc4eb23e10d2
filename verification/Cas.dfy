/** Several instances over one S3 prefix. Each instance remembers the entity tag of the
    manifest it last read or wrote and checkpoints with a conditional PUT (`If-Match`,
    section 13.1.1 of RFC 9110); while it has seen no manifest the PUT is unconditional. */
module Cas {
  import opened Prelude
  import opened Storage

  // A manifest stands for the whole committed history it publishes.
  datatype Manifest = Manifest(tag: nat, history: seq<Pages>)

  // `versions` is a history variable; the current manifest is the last one. Every
  // accepted PUT gets a tag of its own.
  datatype Bucket = Bucket(versions: seq<Manifest>)

  // `base` is the history the instance last saw, `wal` what it committed locally since.
  datatype Writer = Writer(tag: Option<nat>, base: seq<Pages>, wal: seq<Pages>)

  // `acked` lists the histories whose checkpoint succeeded, oldest first.
  datatype Cloud = Cloud(bucket: Bucket, writers: map<nat, Writer>, acked: seq<seq<Pages>>)

  // `LoseResponse` is a PUT that S3 accepts while the writer sees a failure.
  datatype Event = OpenPrefix(n: nat) | CommitLocally(n: nat, batch: Pages) | Publish(n: nat) | LoseResponse(n: nat)

  function Current(b: Bucket): Option<Manifest> {
    if b.versions == [] then None else Some(b.versions[|b.versions| - 1])
  }

  // The conditional PUT.
  predicate Matches(b: Bucket, ifMatch: Option<nat>) {
    ifMatch.Some? ==> Current(b).Some? && Current(b).value.tag == ifMatch.value
  }

  function NextTag(b: Bucket): nat {
    if Current(b).None? then 0 else Current(b).value.tag + 1
  }

  function Put(b: Bucket, ifMatch: Option<nat>, history: seq<Pages>): Result<Bucket, ()> {
    if Matches(b, ifMatch) then Ok(Bucket(b.versions + [Manifest(NextTag(b), history)])) else Err(())
  }

  function Opened(b: Bucket): Writer {
    match Current(b)
    case None => Writer(None, [], [])
    case Some(m) => Writer(Some(m.tag), m.history, [])
  }

  function Pushed(b: Bucket, w: Writer): Writer {
    Writer(Some(NextTag(b)), w.base + w.wal, [])
  }

  // A disabled event changes nothing; neither does a refused PUT.
  function Step(c: Cloud, e: Event): Cloud {
    match e
    case OpenPrefix(n) => c.(writers := c.writers[n := Opened(c.bucket)])
    case CommitLocally(n, batch) =>
      if n !in c.writers then c
      else c.(writers := c.writers[n := c.writers[n].(wal := c.writers[n].wal + [batch])])
    case Publish(n) =>
      if n !in c.writers || c.writers[n].wal == [] then c
      else
        var w := c.writers[n];
        (match Put(c.bucket, w.tag, w.base + w.wal)
         case Err(_) => c
         case Ok(b) => Cloud(b, c.writers[n := Pushed(c.bucket, w)], c.acked + [w.base + w.wal]))
    case LoseResponse(n) =>
      if n !in c.writers || c.writers[n].wal == [] then c
      else
        match Put(c.bucket, c.writers[n].tag, c.writers[n].base + c.writers[n].wal)
        case Err(_) => c
        case Ok(b) => c.(bucket := b)
  }

  function Run(c: Cloud, es: seq<Event>): Cloud {
    if es == [] then c else Step(Run(c, es[..|es| - 1]), es[|es| - 1])
  }

  // ---------------------------------------------------------------- the invariant

  // Each version extends the one before, under a larger tag.
  ghost predicate Chain(versions: seq<Manifest>) {
    forall i, j :: 0 <= i < j < |versions| ==> versions[i].tag < versions[j].tag && versions[i].history <= versions[j].history
  }

  ghost predicate SawAVersion(b: Bucket, w: Writer) {
    w.tag.Some? && exists i :: 0 <= i < |b.versions| && b.versions[i] == Manifest(w.tag.value, w.base)
  }

  ghost predicate Inv(c: Cloud) {
    && c.bucket.versions != []
    && Chain(c.bucket.versions)
    && (forall n :: n in c.writers ==> SawAVersion(c.bucket, c.writers[n]))
    && NothingLost(c)
  }

  // Every acknowledged history is still there, in order, in the current manifest.
  ghost predicate NothingLost(c: Cloud) {
    forall i :: 0 <= i < |c.acked| ==> Current(c.bucket).Some? && c.acked[i] <= Current(c.bucket).value.history
  }

  // A checkpoint succeeds exactly for the writer that saw the latest version; a stale one
  // fails, publishes nothing, and is not acknowledged.
  lemma StaleCheckpointFails(c: Cloud, n: nat)
    requires Inv(c) && n in c.writers && c.writers[n].wal != []
    ensures var w := c.writers[n];
            var d := Step(c, Publish(n));
            && (Put(c.bucket, w.tag, w.base + w.wal).Ok? <==> w.base == Current(c.bucket).value.history && w.tag.value == Current(c.bucket).value.tag)
            && (w.tag.value < Current(c.bucket).value.tag ==> d == c)
            && (d != c ==> d.acked == c.acked + [Current(c.bucket).value.history + w.wal])
  {
  }

  // An accepted PUT keeps the chain and everything acknowledged.
  lemma AcceptedPut(c: Cloud, w: Writer)
    requires c.bucket.versions != [] && Chain(c.bucket.versions) && NothingLost(c)
    requires SawAVersion(c.bucket, w) && Matches(c.bucket, w.tag)
    ensures var b := Put(c.bucket, w.tag, w.base + w.wal).value;
            && b.versions != [] && Chain(b.versions)
            && Current(b) == Some(Manifest(NextTag(c.bucket), w.base + w.wal))
            && (forall i :: 0 <= i < |c.acked| ==> c.acked[i] <= w.base + w.wal)
  {
  }

  lemma StillSaw(b: Bucket, m: Manifest, w: Writer)
    requires SawAVersion(b, w)
    ensures SawAVersion(Bucket(b.versions + [m]), w)
  {
    var i :| 0 <= i < |b.versions| && b.versions[i] == Manifest(w.tag.value, w.base);
    assert (b.versions + [m])[i] == b.versions[i];
  }

  lemma PutInv(c: Cloud, n: nat, e: Event)
    requires Inv(c) && n in c.writers && c.writers[n].wal != [] && Matches(c.bucket, c.writers[n].tag)
    requires e == Publish(n) || e == LoseResponse(n)
    ensures Inv(Step(c, e))
  {
    var w := c.writers[n];
    AcceptedPut(c, w);
    var d := Step(c, e);
    var m := Manifest(NextTag(c.bucket), w.base + w.wal);
    assert d.bucket == Bucket(c.bucket.versions + [m]);
    forall k | k in d.writers ensures SawAVersion(d.bucket, d.writers[k]) {
      if k == n && e.Publish? {
        assert d.bucket.versions[|c.bucket.versions|] == Manifest(d.writers[k].tag.value, d.writers[k].base);
      } else {
        StillSaw(c.bucket, m, c.writers[k]);
      }
    }
  }

  lemma StepInv(c: Cloud, e: Event)
    requires Inv(c)
    ensures Inv(Step(c, e))
  {
    match e {
      case OpenPrefix(n) =>
        assert c.bucket.versions[|c.bucket.versions| - 1] == Manifest(Opened(c.bucket).tag.value, Opened(c.bucket).base);
      case CommitLocally(n, batch) =>
      case Publish(n) =>
        if n in c.writers && c.writers[n].wal != [] && Matches(c.bucket, c.writers[n].tag) {
          PutInv(c, n, e);
        }
      case LoseResponse(n) =>
        if n in c.writers && c.writers[n].wal != [] && Matches(c.bucket, c.writers[n].tag) {
          PutInv(c, n, e);
        }
    }
  }

  lemma {:induction false} RunInv(c: Cloud, es: seq<Event>)
    requires Inv(c)
    ensures Inv(Run(c, es))
  {
    if es != [] {
      RunInv(c, es[..|es| - 1]);
      StepInv(Run(c, es[..|es| - 1]), es[|es| - 1]);
    }
  }

  // A prefix nobody has opened yet, seeded with some published history or empty.
  ghost predicate Fresh(c: Cloud) {
    && c.writers == map[] && |c.bucket.versions| <= 1
    && (if c.bucket.versions == [] then c.acked == [] else c.acked == [c.bucket.versions[0].history])
  }

  // No lost update: seeded before anyone opens it, a prefix keeps every acknowledged
  // history through every run of any number of writers, lost responses included, and
  // each published version extends all earlier ones.
  lemma SeededLosesNothing(c: Cloud, es: seq<Event>)
    requires Fresh(c) && c.bucket.versions != []
    ensures NothingLost(Run(c, es)) && Chain(Run(c, es).bucket.versions)
  {
    RunInv(c, es);
  }

  // An instance that opens the prefix and is not overtaken publishes everything: what it
  // found, and each of its commits in order, checkpoint after checkpoint.
  lemma CurrentWriterPublishes(c: Cloud, n: nat, one: Pages, two: Pages)
    requires Inv(c)
    ensures var d := Step(Step(Step(c, OpenPrefix(n)), CommitLocally(n, one)), Publish(n));
            var e := Step(Step(d, CommitLocally(n, two)), Publish(n));
            var found := Current(c.bucket).value.history;
            && Current(d.bucket).value.history == found + [one] && d.acked == c.acked + [found + [one]]
            && Current(e.bucket).value.history == found + [one] + [two] && e.acked == d.acked + [found + [one] + [two]]
            && |e.bucket.versions| == |c.bucket.versions| + 2
  {
    var d := Step(Step(Step(c, OpenPrefix(n)), CommitLocally(n, one)), Publish(n));
    assert [] + [one] == [one] && [] + [two] == [two];
    assert Current(d.bucket).value.tag == d.writers[n].tag.value;
  }

  // `n` is stale: it saw a version, but not the current one.
  ghost predicate Stale(c: Cloud, n: nat) {
    n in c.writers && c.writers[n].tag.Some? && Current(c.bucket).Some? && c.writers[n].tag.value < Current(c.bucket).value.tag
  }

  lemma StepStale(c: Cloud, e: Event, n: nat)
    requires Stale(c, n) && e != OpenPrefix(n)
    ensures Stale(Step(c, e), n)
    ensures e == Publish(n) || e == LoseResponse(n) ==> Step(c, e) == c
  {
  }

  lemma {:induction false} RunStale(c: Cloud, es: seq<Event>, n: nat)
    requires Stale(c, n) && OpenPrefix(n) !in es
    ensures Stale(Run(c, es), n)
  {
    if es != [] {
      RunStale(c, es[..|es| - 1], n);
      StepStale(Run(c, es[..|es| - 1]), es[|es| - 1], n);
    }
  }

  // A lost response is not acknowledged, and whatever everybody does next, the writer's
  // retries are refused until it opens the prefix again: its commits are published once.
  lemma LostResponseIsNotRetried(c: Cloud, n: nat, es: seq<Event>)
    requires Inv(c) && Step(c, LoseResponse(n)) != c && OpenPrefix(n) !in es
    ensures var d := Run(Step(c, LoseResponse(n)), es);
            && Step(c, LoseResponse(n)).acked == c.acked
            && Step(d, Publish(n)) == d
  {
    RunStale(Step(c, LoseResponse(n)), es, n);
    StepStale(Run(Step(c, LoseResponse(n)), es), Publish(n), n);
  }

  // Two instances race on a brand-new prefix: both PUTs are unconditional, and the second
  // replaces the first.
  function Race(): seq<Event> {
    [OpenPrefix(1), OpenPrefix(2), CommitLocally(1, map[1 := 1]), CommitLocally(2, map[2 := 2]), Publish(1), Publish(2)]
  }

  const BRAND_NEW: Cloud := Cloud(Bucket([]), map[], [])

  lemma RaceReady()
    ensures Run(BRAND_NEW, Race()[..4]) ==
            Cloud(Bucket([]), map[1 := Writer(None, [], [map[1 := 1]]), 2 := Writer(None, [], [map[2 := 2]])], [])
  {
    var es := Race();
    var w := Writer(None, [], []);
    forall i | 0 <= i < 4 ensures es[..i + 1][..i] == es[..i] {}
    assert Run(BRAND_NEW, es[..0]) == BRAND_NEW;
    assert Run(BRAND_NEW, es[..1]) == Cloud(Bucket([]), map[1 := w], []);
    assert Run(BRAND_NEW, es[..2]) == Cloud(Bucket([]), map[1 := w, 2 := w], []);
    var one: seq<Pages>, two: seq<Pages> := [map[1 := 1]], [map[2 := 2]];
    assert w.wal + one == one && w.wal + two == two;
    assert Run(BRAND_NEW, es[..3]) == Cloud(Bucket([]), map[1 := w.(wal := one), 2 := w], []);
  }

  lemma RaceFinished()
    ensures Run(BRAND_NEW, Race()).acked == [[map[1 := 1]], [map[2 := 2]]]
    ensures Current(Run(BRAND_NEW, Race()).bucket) == Some(Manifest(1, [map[2 := 2]]))
  {
    var es := Race();
    RaceReady();
    assert es[..5][..4] == es[..4] && es[..6][..5] == es[..5] && es[..6] == es;
    var c5 := Run(BRAND_NEW, es[..5]);
    var one: seq<Pages>, two: seq<Pages> := [map[1 := 1]], [map[2 := 2]];
    assert [] + one == one && [] + two == two;
    assert c5 == Step(Run(BRAND_NEW, es[..4]), Publish(1));
    assert c5.bucket == Bucket([Manifest(0, one)]) && c5.writers[2] == Writer(None, [], two) && c5.acked == [one];
    assert Run(BRAND_NEW, es) == Step(c5, Publish(2));
  }

  lemma UnseededRaceLoses()
    ensures var d := Run(BRAND_NEW, Race());
            && d.acked == [[map[1 := 1]], [map[2 := 2]]]
            && Current(d.bucket) == Some(Manifest(1, [map[2 := 2]]))
            && !NothingLost(d)
  {
    RaceFinished();
    var d := Run(BRAND_NEW, Race());
    assert 1 in d.acked[0][0] && 1 !in Current(d.bucket).value.history[0];
  }

  // The seed is exactly what it takes: some published manifest before the first open.
  lemma SafeExactlyWhenSeeded(c: Cloud)
    requires Fresh(c)
    ensures c.bucket.versions != [] <==> forall es: seq<Event> :: NothingLost(Run(c, es))
  {
    if c.bucket.versions != [] {
      forall es: seq<Event> ensures NothingLost(Run(c, es)) { SeededLosesNothing(c, es); }
    } else {
      assert c == BRAND_NEW;
      UnseededRaceLoses();
      assert !NothingLost(Run(c, Race()));
    }
  }

  // ---------------------------------------------------------------- the scenario

  class S3 {
    var bucket: Bucket

    constructor ()
      ensures bucket == Bucket([])
    {
      bucket := Bucket([]);
    }

    method PutManifest(ifMatch: Option<nat>, history: seq<Pages>) returns (ok: bool)
      modifies this
      ensures ok <==> Put(old(bucket), ifMatch, history).Ok?
      ensures bucket == if ok then Put(old(bucket), ifMatch, history).value else old(bucket)
    {
      ok := Matches(bucket, ifMatch);
      if ok {
        bucket := Bucket(bucket.versions + [Manifest(NextTag(bucket), history)]);
      }
    }
  }

  class Instance {
    const s3: S3
    var w: Writer

    constructor (s3: S3)
      ensures this.s3 == s3 && w == Opened(s3.bucket)
    {
      this.s3 := s3;
      this.w := Opened(s3.bucket);
    }

    method Exec(batch: Pages)
      modifies this
      ensures w == old(w).(wal := old(w).wal + [batch])
    {
      w := w.(wal := w.wal + [batch]);
    }

    method Checkpoint() returns (ok: bool)
      modifies this, s3
      ensures ok <==> old(w).wal == [] || Matches(old(s3.bucket), old(w).tag)
      ensures !ok || old(w).wal == [] ==> w == old(w) && s3.bucket == old(s3.bucket)
      ensures ok && old(w).wal != [] ==>
                w == Pushed(old(s3.bucket), old(w)) && Ok(s3.bucket) == Put(old(s3.bucket), old(w).tag, old(w).base + old(w).wal)
    {
      if w.wal == [] {
        return true;
      }
      var next := Pushed(s3.bucket, w);
      ok := s3.PutManifest(w.tag, w.base + w.wal);
      if ok {
        w := next;
      }
    }
  }

  // Seed, open two writers, let the first commit, then the second.
  method SecondCommitFails(create: Pages, one: Pages, two: Pages) returns (first: bool, second: bool, s3: S3)
    ensures first && !second
    ensures Current(s3.bucket) == Some(Manifest(1, [create, one]))
  {
    s3 := new S3();
    var seed := new Instance(s3);
    seed.Exec(create);
    assert seed.w.base + seed.w.wal == [create];
    var seeded := seed.Checkpoint();
    assert seeded && s3.bucket.versions == [Manifest(0, [create])];
    var db1 := new Instance(s3);
    var db2 := new Instance(s3);
    db1.Exec(one);
    assert db1.w.base + db1.w.wal == [create, one];
    first := db1.Checkpoint();
    db2.Exec(two);
    second := db2.Checkpoint();
  }
}
