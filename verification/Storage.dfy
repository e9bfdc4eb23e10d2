/** The pages behind the connection: the durable copy (the main database file,
    whose canonical home is S3 behind the turbolite VFS) and the container-local
    write-ahead log. The functions here are the contract taken from SQLite; what
    is proved is what rustyhip relies on. */
module Storage {
  import opened Prelude

  // Page number -> page image.
  type Pages = map<nat, int>

  // `wal` holds the committed batches that are still in the local WAL file, oldest
  // first; the first `backfilled` of them have already been copied to `durable`.
  // `committed` is a history variable: every batch committed so far, in order.
  datatype Store = Store(durable: Pages, wal: seq<Pages>, backfilled: nat, committed: seq<Pages>)

  // Later batches overwrite earlier ones, page by page.
  function Overlay(batches: seq<Pages>): Pages {
    if batches == [] then map[] else Overlay(batches[..|batches| - 1]) + batches[|batches| - 1]
  }

  predicate Bounded(s: Store) {
    s.backfilled <= |s.wal| <= |s.committed|
  }

  function DurableCount(s: Store): nat
    requires Bounded(s)
  {
    |s.committed| - |s.wal| + s.backfilled
  }

  // What survives when the container and its local WAL vanish.
  function DurableHistory(s: Store): seq<Pages>
    requires Bounded(s)
  {
    s.committed[..DurableCount(s)]
  }

  ghost predicate Valid(s: Store) {
    && Bounded(s)
    && (forall i :: 0 <= i < |s.wal| ==> s.wal[i] == s.committed[|s.committed| - |s.wal| + i])
    && s.durable == Overlay(DurableHistory(s))
  }

  // The commits whose frames have left the WAL.
  function Base(s: Store): seq<Pages>
    requires Bounded(s)
  {
    s.committed[..|s.committed| - |s.wal|]
  }

  function Visible(s: Store): Pages {
    s.durable + Overlay(s.wal)
  }

  // How a reader finds one page: the newest WAL frame for it, else the main file.
  function ReadPage(durable: Pages, wal: seq<Pages>, page: nat): Option<int> {
    if wal == [] then (if page in durable then Some(durable[page]) else None)
    else if page in wal[|wal| - 1] then Some(wal[|wal| - 1][page])
    else ReadPage(durable, wal[..|wal| - 1], page)
  }

  // One commit outside or at the end of a transaction: a batch of frames appended to
  // the WAL. A batch without pages adds no frame.
  function CommitToWal(s: Store, batch: Pages): Store {
    if batch == map[] then s
    else s.(wal := s.wal + [batch], committed := s.committed + [batch])
  }

  // In rollback-journal mode the commit lands in the main file.
  function CommitToMain(s: Store, batch: Pages): Store {
    if batch == map[] then s
    else s.(durable := s.durable + batch, committed := s.committed + [batch])
  }

  function Clamp(k: nat, lo: nat, hi: nat): (r: nat)
    requires lo <= hi
    ensures lo <= r <= hi
  {
    if k < lo then lo else if k > hi then hi else k
  }

  // Batches `lo` up to `hi` of the WAL copied over the main file, one after another.
  function CopyBatches(durable: Pages, wal: seq<Pages>, lo: nat, hi: nat): Pages
    requires lo <= hi <= |wal|
  {
    if lo == hi then durable else CopyBatches(durable, wal, lo, hi - 1) + wal[hi - 1]
  }

  // A checkpoint (complete or not, requested or automatic) that got as far as batch `reach`.
  function Backfill(s: Store, reach: nat): Store
    requires Bounded(s)
  {
    var k := Clamp(reach, s.backfilled, |s.wal|);
    s.(durable := CopyBatches(s.durable, s.wal, s.backfilled, k), backfilled := k)
  }

  // `wal_checkpoint(TRUNCATE)` answering busy = 0.
  function TruncateWal(s: Store): Store
    requires Bounded(s)
  {
    Backfill(s, |s.wal|).(wal := [], backfilled := 0)
  }

  // The container vanishes: the WAL is gone, and so are the commits only it held.
  function Crash(s: Store): Store
    requires Bounded(s)
  {
    s.(wal := [], backfilled := 0, committed := DurableHistory(s))
  }

  lemma MergeAssoc(x: Pages, y: Pages, z: Pages)
    ensures x + y + z == x + (y + z)
  {
  }

  lemma {:induction false} OverlayConcat(a: seq<Pages>, b: seq<Pages>)
    ensures Overlay(a + b) == Overlay(a) + Overlay(b)
  {
    if b == [] {
      assert a + b == a;
    } else {
      var b' := b[..|b| - 1];
      OverlayConcat(a, b');
      assert (a + b)[..|a + b| - 1] == a + b';
      MergeAssoc(Overlay(a), Overlay(b'), b[|b| - 1]);
    }
  }

  // Frames already copied to the main file are found again in the WAL with the same result.
  lemma ReapplyingIsInvisible(base: Pages, wal: seq<Pages>, k: nat)
    requires k <= |wal|
    ensures base + Overlay(wal[..k]) + Overlay(wal) == base + Overlay(wal)
  {
    var x, y := Overlay(wal[..k]), Overlay(wal[k..]);
    assert wal == wal[..k] + wal[k..];
    OverlayConcat(wal[..k], wal[k..]);
    assert x + (x + y) == x + y;
    MergeAssoc(base, x, x + y);
  }

  lemma {:induction false} ReadPageSpec(durable: Pages, wal: seq<Pages>, page: nat)
    ensures var all := durable + Overlay(wal);
            ReadPage(durable, wal, page) == if page in all then Some(all[page]) else None
  {
    if wal != [] {
      ReadPageSpec(durable, wal[..|wal| - 1], page);
    }
  }

  lemma PrefixOfConcat(a: seq<Pages>, b: seq<Pages>, n: nat)
    requires n <= |b|
    ensures (a + b)[..|a| + n] == a + b[..n]
  {
  }

  lemma HistoryPrefix(all: seq<Pages>, a: seq<Pages>, b: seq<Pages>, n: nat, count: nat)
    requires all == a + b && n <= |b| && count == |a| + n
    ensures all[..count] == a + b[..n]
  {
    PrefixOfConcat(a, b, n);
  }

  lemma SplitHistory(s: Store)
    requires Valid(s)
    ensures s.committed == Base(s) + s.wal
    ensures DurableHistory(s) == Base(s) + s.wal[..s.backfilled]
  {
    assert s.committed == Base(s) + s.wal;
    HistoryPrefix(s.committed, Base(s), s.wal, s.backfilled, DurableCount(s));
  }

  lemma VisibleIsCommitted(s: Store)
    requires Valid(s)
    ensures Visible(s) == Overlay(s.committed)
  {
    SplitHistory(s);
    OverlayConcat(Base(s), s.wal[..s.backfilled]);
    OverlayConcat(Base(s), s.wal);
    ReapplyingIsInvisible(Overlay(Base(s)), s.wal, s.backfilled);
  }

  lemma {:induction false} CopyExtends(pre: seq<Pages>, wal: seq<Pages>, lo: nat, hi: nat)
    requires lo <= hi <= |wal|
    ensures CopyBatches(Overlay(pre + wal[..lo]), wal, lo, hi) == Overlay(pre + wal[..hi])
  {
    if lo < hi {
      CopyExtends(pre, wal, lo, hi - 1);
      PrefixOfConcat(pre, wal[..hi], hi - 1);
      assert wal[..hi][..hi - 1] == wal[..hi - 1];
    }
  }

  lemma PrefixesNest(c: seq<Pages>, i: nat, j: nat)
    requires i <= j <= |c|
    ensures c[..i] <= c[..j]
  {
  }

  lemma BackfillHistory(s: Store, reach: nat)
    requires Valid(s)
    ensures var t := Backfill(s, reach);
            && DurableCount(t) == |s.committed| - |s.wal| + t.backfilled
            && DurableHistory(t) == Base(s) + s.wal[..t.backfilled]
  {
    var t := Backfill(s, reach);
    SplitHistory(s);
    HistoryPrefix(s.committed, Base(s), s.wal, t.backfilled, DurableCount(t));
  }

  lemma BackfillCopies(s: Store, reach: nat)
    requires Valid(s)
    ensures var t := Backfill(s, reach); t.durable == Overlay(DurableHistory(t))
  {
    SplitHistory(s);
    BackfillHistory(s, reach);
    CopyExtends(Base(s), s.wal, s.backfilled, Backfill(s, reach).backfilled);
  }

  lemma BackfillValid(s: Store, reach: nat)
    requires Valid(s)
    ensures var t := Backfill(s, reach);
            Valid(t) && t.committed == s.committed && DurableHistory(s) <= DurableHistory(t)
            && DurableCount(t) == |s.committed| - |s.wal| + Clamp(reach, s.backfilled, |s.wal|)
  {
    BackfillCopies(s, reach);
    PrefixesNest(s.committed, DurableCount(s), DurableCount(Backfill(s, reach)));
  }

  lemma TruncateValid(s: Store)
    requires Valid(s)
    ensures var t := TruncateWal(s);
            Valid(t) && t.committed == s.committed && DurableHistory(t) == t.committed
  {
    BackfillValid(s, |s.wal|);
    assert s.committed[..|s.committed|] == s.committed;
  }

  lemma CrashValid(s: Store)
    requires Valid(s)
    ensures var t := Crash(s);
            Valid(t) && t.committed == DurableHistory(s) && DurableHistory(t) == DurableHistory(s)
            && Visible(t) == s.durable
  {
    var t := Crash(s);
    assert DurableHistory(t) == t.committed;
  }

  lemma CommitToWalValid(s: Store, batch: Pages)
    requires Valid(s)
    ensures var t := CommitToWal(s, batch);
            Valid(t) && DurableHistory(t) == DurableHistory(s)
            && t.committed == s.committed + (if batch == map[] then [] else [batch])
  {
    if batch != map[] {
      var t := CommitToWal(s, batch);
      assert DurableHistory(t) == DurableHistory(s);
    }
  }

  lemma CommitToMainValid(s: Store, batch: Pages)
    requires Valid(s) && s.wal == []
    ensures var t := CommitToMain(s, batch);
            Valid(t) && DurableHistory(t) == t.committed && t.wal == []
            && t.committed == s.committed + (if batch == map[] then [] else [batch])
  {
    assert DurableHistory(s) == s.committed;
    if batch != map[] {
      var t := CommitToMain(s, batch);
      assert DurableHistory(t) == s.committed + [batch];
      assert (s.committed + [batch])[..|s.committed|] == s.committed;
    }
  }

  // No checkpoint, however far it gets, changes what any page reads as.
  lemma CheckpointIsInvisible(s: Store, reach: nat, page: nat)
    requires Valid(s)
    ensures var b := Backfill(s, reach);
            ReadPage(b.durable, b.wal, page) == ReadPage(s.durable, s.wal, page)
    ensures var t := TruncateWal(s);
            ReadPage(t.durable, t.wal, page) == ReadPage(s.durable, s.wal, page)
  {
    var b, t := Backfill(s, reach), TruncateWal(s);
    BackfillValid(s, reach);
    TruncateValid(s);
    VisibleIsCommitted(s);
    VisibleIsCommitted(b);
    VisibleIsCommitted(t);
    ReadPageSpec(s.durable, s.wal, page);
    ReadPageSpec(b.durable, b.wal, page);
    ReadPageSpec(t.durable, t.wal, page);
  }

  // Two partial checkpoints in a row are one: nothing is copied twice or skipped.
  lemma BackfillTwice(s: Store, a: nat, b: nat)
    requires Bounded(s)
    ensures Backfill(Backfill(s, a), b) == Backfill(s, if a < b then b else a)
  {
    var ka := Clamp(a, s.backfilled, |s.wal|);
    CopyTwice(s.durable, s.wal, s.backfilled, ka, Clamp(b, ka, |s.wal|));
  }

  lemma {:induction false} CopyTwice(durable: Pages, wal: seq<Pages>, i: nat, j: nat, k: nat)
    requires i <= j <= k <= |wal|
    ensures CopyBatches(CopyBatches(durable, wal, i, j), wal, j, k) == CopyBatches(durable, wal, i, k)
  {
    if j < k {
      CopyTwice(durable, wal, i, j, k - 1);
    }
  }
}
