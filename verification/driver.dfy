/** The caller's loop around `scanDriveStep`: start at an index, and while
    the reply is not done, invoke again with its `nextIndex`. The listing
    stays fixed across invocations; what fails may differ from one
    invocation to the next. */
module Driver {
  import opened Results
  import opened Decimal
  import opened Progress
  import opened Audit
  import opened Scan

  /** What fails during one invocation: opening the sheet, the scan's own
      search, and the counting search. */
  datatype Faults = Faults(sheet: Option<string>, search: Option<string>, count: Option<string>)

  /** The host across a run: a fixed listing, and the failures of each
      invocation, by its position in the run. */
  datatype Environment = Environment(listing: seq<FileMeta>, faults: nat -> Faults)

  /** The host as invocation `round` of a run sees it. */
  function HostAt(env: Environment, round: nat): Host {
    var f := env.faults(round);
    Host(env.listing, f.sheet, f.search, f.count)
  }

  /** The outcomes of the successive invocations from invocation `round` on,
      up to the first one that reports done. */
  function Trace(env: Environment, round: nat, start: int, store: Store, sheet: Sheet): (t: seq<StepOutcome>)
    ensures |t| >= 1
    decreases MaxFiles - start
  {
    var o := Step(HostAt(env, round), start, store, sheet);
    match o.reply
    case Done(_) => [o]
    case Continue(next) => [o] + Trace(env, round + 1, next, o.store, o.sheet)
  }

  /** One invocation, then the run from the state it leaves. */
  lemma {:induction false} TraceUnfold(env: Environment, round: nat, start: int, store: Store, sheet: Sheet)
    ensures var o := Step(HostAt(env, round), start, store, sheet);
      Trace(env, round, start, store, sheet)
        == if o.reply.Done? then [o] else [o] + Trace(env, round + 1, o.reply.nextIndex, o.store, o.sheet)
  {
  }

  /** The last outcome of a run. */
  function Final(t: seq<StepOutcome>): StepOutcome
    requires |t| >= 1
  {
    t[|t| - 1]
  }

  /** Prefixing an invocation does not change the last outcome. */
  lemma {:induction false} FinalCons(o: StepOutcome, rest: seq<StepOutcome>)
    requires |rest| >= 1
    ensures Final([o] + rest) == Final(rest)
  {
  }

  /** Every invocation of a run but the last continues, and the last reports
      done: the caller's loop always stops. */
  predicate Ends(t: seq<StepOutcome>) {
    && |t| >= 1
    && Final(t).reply.Done?
    && forall i :: 0 <= i < |t| - 1 ==> t[i].reply.Continue?
  }

  lemma {:induction false} EndsCons(o: StepOutcome, rest: seq<StepOutcome>)
    requires o.reply.Continue? && Ends(rest)
    ensures Ends([o] + rest)
  {
    var t := [o] + rest;
    forall i | 1 <= i < |t|
      ensures t[i] == rest[i - 1]
    {
    }
  }

  lemma {:induction false} TraceEnds(env: Environment, round: nat, start: int, store: Store, sheet: Sheet)
    ensures Ends(Trace(env, round, start, store, sheet))
    decreases MaxFiles - start
  {
    var o := Step(HostAt(env, round), start, store, sheet);
    TraceUnfold(env, round, start, store, sheet);
    if o.reply.Continue? {
      TraceEnds(env, round + 1, o.reply.nextIndex, o.store, o.sheet);
      EndsCons(o, Trace(env, round + 1, o.reply.nextIndex, o.store, o.sheet));
    }
  }

  function Max(a: int, b: int): int {
    if a >= b then a else b
  }

  /** An invocation whose sheet or search fails is the last of the run. */
  lemma {:induction false} TraceFaulted(env: Environment, round: nat, start: int, store: Store, sheet: Sheet)
    requires !Healthy(HostAt(env, round))
    ensures |Trace(env, round, start, store, sheet)| == 1
  {
  }

  /** Neither the sheet nor the search fails in invocation `round` or later. */
  ghost predicate HealthyFrom(env: Environment, round: nat) {
    forall r: nat :: round <= r ==> Healthy(HostAt(env, r))
  }

  /** A healthy run from `start` makes one invocation per batch of the files
      still to cover (and one when none is left). */
  lemma {:induction false} TraceLength(env: Environment, round: nat, start: int, store: Store, sheet: Sheet)
    requires HealthyFrom(env, round) && 0 <= start <= Limit(env.listing)
    ensures |Trace(env, round, start, store, sheet)| == Max(1, (Limit(env.listing) - start + BatchSize - 1) / BatchSize)
    decreases MaxFiles - start
  {
    var o := Step(HostAt(env, round), start, store, sheet);
    StepDecision(HostAt(env, round), start, store, sheet);
    if o.reply.Continue? {
      TraceLength(env, round + 1, o.reply.nextIndex, o.store, o.sheet);
    }
  }

  /** One healthy invocation from `start` (at most the cap) appends the rows
      of the entries from `start` to the index it reaches, which is the cap
      exactly when it finishes and the next start otherwise. */
  lemma {:induction false} StepCovers(h: Host, start: int, store: Store, sheet: Sheet)
    requires Healthy(h) && 0 <= start <= Limit(h.listing)
    ensures var o, next := Step(h, start, store, sheet), start + |Appended(h.listing, start)|;
      && next <= Limit(h.listing)
      && o.sheet == Some(OpenSheet(sheet) + AuditRows(h.listing[start..next]))
      && (o.reply.Done? ==> next == Limit(h.listing))
      && (o.reply.Continue? ==> o.reply.nextIndex == next)
  {
    StepAppends(h, start, store, sheet);
    StepDecision(h, start, store, sheet);
  }

  /** The rows of `start..next` appended to a sheet, then the rows of
      `next..j`, leave the rows of `start..j` after the sheet's own. */
  lemma {:induction false} RowsThen(files: seq<FileMeta>, base: seq<Row>, start: nat, next: nat, j: nat)
    requires start <= next <= j <= |files|
    ensures OpenSheet(Some(base + AuditRows(files[start..next]))) + AuditRows(files[next..j])
      == base + AuditRows(files[start..j])
  {
    var mid, tail := AuditRows(files[start..next]), AuditRows(files[next..j]);
    assert AuditRows(files[start..j]) == mid + tail by {
      AuditRowsJoin(files, start, next, j);
    }
    assert (base + mid) + tail == base + (mid + tail);
  }

  /** A healthy run from `start` appends, across all its invocations, the rows
      of the listing entries from `start` up to the cap, each once and in
      listing order. */
  lemma {:induction false} TraceCovers(env: Environment, round: nat, start: int, store: Store, sheet: Sheet)
    requires HealthyFrom(env, round) && 0 <= start <= Limit(env.listing)
    ensures var t := Trace(env, round, start, store, sheet);
      Final(t).sheet == Some(OpenSheet(sheet) + AuditRows(env.listing[start..Limit(env.listing)]))
    decreases MaxFiles - start
  {
    var h := HostAt(env, round);
    var o := Step(h, start, store, sheet);
    var t := Trace(env, round, start, store, sheet);
    var next := start + |Appended(h.listing, start)|;
    assert next <= Limit(env.listing) && o.sheet == Some(OpenSheet(sheet) + AuditRows(env.listing[start..next]))
      && (o.reply.Done? ==> next == Limit(env.listing))
      && (o.reply.Continue? ==> o.reply.nextIndex == next) by {
      StepCovers(h, start, store, sheet);
    }
    if o.reply.Continue? {
      var rest := Trace(env, round + 1, next, o.store, o.sheet);
      assert Final(t) == Final(rest) by {
        TraceUnfold(env, round, start, store, sheet);
        FinalCons(o, rest);
      }
      TraceCovers(env, round + 1, next, o.store, o.sheet);
      RowsThen(env.listing, OpenSheet(sheet), start, next, Limit(env.listing));
    } else {
      assert t == [o] by {
        TraceUnfold(env, round, start, store, sheet);
      }
    }
  }

  /** From the first invocation, a healthy run writes exactly the first
      `min(n, MaxFiles)` files of the listing, in order. */
  lemma {:induction false} TraceCoversPrefix(env: Environment, sheet: Sheet, store: Store)
    requires HealthyFrom(env, 0)
    ensures var t := Trace(env, 0, 0, store, sheet);
      Final(t).sheet == Some(OpenSheet(sheet) + AuditRows(env.listing[..Limit(env.listing)]))
  {
    TraceCovers(env, 0, 0, store, sheet);
    assert env.listing[0..Limit(env.listing)] == env.listing[..Limit(env.listing)];
  }

  /** The sheet a run leaves: unchanged, or its earlier rows followed by the
      rows of the listing entries from `start` up to some index no further
      than `limit`. */
  ghost predicate RowsUpTo(files: seq<FileMeta>, start: nat, limit: nat, before: Sheet, after: Sheet)
    requires start <= limit <= |files|
  {
    || after == before
    || exists j :: start <= j <= limit && after == Some(OpenSheet(before) + AuditRows(files[start..j]))
  }

  /** Rows of `start..next` written first, then the rows of some later
      stretch `next..j` (or nothing more), are the rows of one stretch from
      `start`. */
  lemma {:induction false} RowsUpToExtend(files: seq<FileMeta>, start: nat, next: nat, limit: nat, before: Sheet, after: Sheet)
    requires start <= next <= limit <= |files|
    requires RowsUpTo(files, next, limit, Some(OpenSheet(before) + AuditRows(files[start..next])), after)
    ensures after != before ==> exists j :: start <= j <= limit && after == Some(OpenSheet(before) + AuditRows(files[start..j]))
  {
    var base, mid := OpenSheet(before), AuditRows(files[start..next]);
    if after == Some(base + mid) {
      assert start <= next <= limit && after == Some(base + AuditRows(files[start..next]));
    } else if after != before {
      var j :| next <= j <= limit && after == Some(OpenSheet(Some(base + mid)) + AuditRows(files[next..j]));
      RowsThen(files, base, start, next, j);
      assert start <= j <= limit && after == Some(base + AuditRows(files[start..j]));
    }
  }

  /** Whatever fails, in whichever invocation, a run from `start` leaves the
      sheet as it was (when the sheet cannot be opened at once) or holding
      its earlier rows followed by the rows of the listing entries from
      `start` up to some index, each once and in listing order. */
  lemma {:induction false} TraceWritesPrefix(env: Environment, round: nat, start: nat, store: Store, sheet: Sheet)
    requires start <= Limit(env.listing)
    ensures RowsUpTo(env.listing, start, Limit(env.listing), sheet, Final(Trace(env, round, start, store, sheet)).sheet)
    decreases MaxFiles - start
  {
    var h := HostAt(env, round);
    var o := Step(h, start, store, sheet);
    var t := Trace(env, round, start, store, sheet);
    var base := OpenSheet(sheet);
    if !Healthy(h) {
      assert t == [o] by {
        TraceUnfold(env, round, start, store, sheet);
      }
      if h.sheetFault.None? {
        assert o.sheet == Some(base);
        assert AuditRows(env.listing[start..start]) == [];
        assert base + AuditRows(env.listing[start..start]) == base;
      }
    } else {
      var next := start + |Appended(h.listing, start)|;
      assert next <= Limit(env.listing) && o.sheet == Some(base + AuditRows(env.listing[start..next]))
        && (o.reply.Continue? ==> o.reply.nextIndex == next) by {
        StepCovers(h, start, store, sheet);
      }
      if o.reply.Done? {
        assert t == [o] by {
          TraceUnfold(env, round, start, store, sheet);
        }
      } else {
        var rest := Trace(env, round + 1, next, o.store, o.sheet);
        assert Final(t) == Final(rest) by {
          TraceUnfold(env, round, start, store, sheet);
          FinalCons(o, rest);
        }
        TraceWritesPrefix(env, round + 1, next, o.store, o.sheet);
        RowsUpToExtend(env.listing, start, next, Limit(env.listing), sheet, Final(rest).sheet);
      }
    }
  }

  /** The counting search fails in every invocation from `round` on, or in
      none of them, so every invocation computes the same total. */
  ghost predicate CountSteady(env: Environment, round: nat) {
    forall r: nat :: round <= r ==> (env.faults(r).count.Some? <==> env.faults(round).count.Some?)
  }

  /** The percentage a poller reads after each invocation of a run. */
  function Readings(t: seq<StepOutcome>): (p: seq<Option<int>>)
    ensures |p| == |t|
  {
    if t == [] then [] else [StoredPercent(t[0].store)] + Readings(t[1..])
  }

  lemma {:induction false} ReadingsCons(o: StepOutcome, rest: seq<StepOutcome>)
    ensures Readings([o] + rest) == [StoredPercent(o.store)] + Readings(rest)
  {
    assert ([o] + rest)[1..] == rest;
  }

  /** Always a number, never decreasing, and 100 at the last reading. */
  predicate Rising(p: seq<Option<int>>) {
    && |p| >= 1
    && (forall i :: 0 <= i < |p| ==> p[i].Some?)
    && (forall i, j :: 0 <= i <= j < |p| ==> p[i].value <= p[j].value)
    && p[|p| - 1] == Some(100)
  }

  /** The shape a poller relies on between invocations: rising, and below
      100 until the last reading. */
  predicate Climbs(p: seq<Option<int>>) {
    && Rising(p)
    && (forall i :: 0 <= i < |p| - 1 ==> p[i].value < 100)
  }

  /** Prefixing a reading below 100 and no larger than the next keeps the
      shape. */
  lemma {:induction false} ClimbsCons(x: Option<int>, rest: seq<Option<int>>)
    requires Climbs(rest)
    requires x.Some? && x.value < 100 && x.value <= rest[0].value
    ensures Climbs([x] + rest)
  {
    var p := [x] + rest;
    forall i | 1 <= i < |p|
      ensures p[i] == rest[i - 1]
    {
    }
  }

  /** A continuing invocation hands over to the next, which sees the same
      total: what the first leaves is a number below 100, equal to the share
      it wrote, and the next one writes nothing smaller. */
  lemma {:induction false} StepHandOver(h: Host, h': Host, start: int, store: Store, sheet: Sheet)
    requires 0 <= start && Total(h') == Total(h)
    requires Step(h, start, store, sheet).reply.Continue?
    ensures var o := Step(h, start, store, sheet);
      var o' := Step(h', o.reply.nextIndex, o.store, o.sheet);
      && StoredPercent(o.store).Some? && StoredPercent(o.store).value < 100
      && o.progress == StoredPercent(o.store)
      && StoredPercent(o'.store).Some?
      && StoredPercent(o.store).value <= StoredPercent(o'.store).value
      && (o'.progress.Some? ==> StoredPercent(o.store).value <= o'.progress.value)
  {
    var o := Step(h, start, store, sheet);
    StepPercent(h, start, store, sheet);
    StepWritten(h, start, store, sheet);
    StepPercent(h', o.reply.nextIndex, o.store, o.sheet);
    StepWritten(h', o.reply.nextIndex, o.store, o.sheet);
  }

  /** Across the invocations of a run from a non-negative start, with the
      counting search failing throughout or never, the stored percentage has
      the shape a poller relies on. */
  lemma {:induction false} TraceProgress(env: Environment, round: nat, start: int, store: Store, sheet: Sheet)
    requires 0 <= start && CountSteady(env, round)
    ensures Climbs(Readings(Trace(env, round, start, store, sheet)))
    decreases MaxFiles - start
  {
    var h := HostAt(env, round);
    var o := Step(h, start, store, sheet);
    if o.reply.Continue? {
      var next := o.reply.nextIndex;
      var rest := Trace(env, round + 1, next, o.store, o.sheet);
      assert Trace(env, round, start, store, sheet) == [o] + rest by {
        TraceUnfold(env, round, start, store, sheet);
      }
      assert rest[0] == Step(HostAt(env, round + 1), next, o.store, o.sheet) by {
        TraceUnfold(env, round + 1, next, o.store, o.sheet);
      }
      assert CountSteady(env, round + 1);
      assert Total(HostAt(env, round + 1)) == Total(h);
      assert next >= 0 by {
        StepDecision(h, start, store, sheet);
      }
      TraceProgress(env, round + 1, next, o.store, o.sheet);
      StepHandOver(h, HostAt(env, round + 1), start, store, sheet);
      ReadingsCons(o, rest);
      ClimbsCons(StoredPercent(o.store), Readings(rest));
    } else {
      assert Trace(env, round, start, store, sheet) == [o] by {
        TraceUnfold(env, round, start, store, sheet);
      }
      StepPercent(h, start, store, sheet);
      assert Readings([o]) == [StoredPercent(o.store)];
    }
  }

  /** Every percentage one invocation puts in the cell, in write order. A
      continuing invocation writes its share once and leaves it there; a
      finishing one that got as far as the share writes it and then 100; one
      that fails early writes only 100. */
  function Observed(o: StepOutcome): (p: seq<Option<int>>)
    ensures |p| >= 1
  {
    (if o.reply.Done? && o.progress.Some? then [o.progress] else []) + [StoredPercent(o.store)]
  }

  /** Every percentage a run puts in the cell, in order. */
  function Writes(t: seq<StepOutcome>): (p: seq<Option<int>>)
    ensures |p| >= |t|
  {
    if t == [] then [] else Observed(t[0]) + Writes(t[1..])
  }

  lemma {:induction false} WritesCons(o: StepOutcome, rest: seq<StepOutcome>)
    ensures Writes([o] + rest) == Observed(o) + Writes(rest)
  {
    assert ([o] + rest)[1..] == rest;
  }

  /** Readings no larger than the first of a rising sequence, themselves
      numbers in order, keep it rising when put in front. */
  lemma {:induction false} RisingPrepend(xs: seq<Option<int>>, rest: seq<Option<int>>)
    requires Rising(rest)
    requires forall i :: 0 <= i < |xs| ==> xs[i].Some? && xs[i].value <= rest[0].value
    requires forall i, j :: 0 <= i <= j < |xs| ==> xs[i].value <= xs[j].value
    ensures Rising(xs + rest)
  {
    var p := xs + rest;
    forall i | |xs| <= i < |p|
      ensures p[i] == rest[i - |xs|]
    {
    }
  }

  /** A continuing invocation that writes a number and leaves it in the
      cell, no larger than anything the next invocation writes, keeps the
      writes of a run rising when put in front. */
  lemma {:induction false} WritesRisingCons(o: StepOutcome, rest: seq<StepOutcome>)
    requires |rest| >= 1 && Rising(Writes(rest))
    requires o.reply.Continue? && o.progress.Some? && o.progress == StoredPercent(o.store)
    requires StoredPercent(rest[0].store).Some? && o.progress.value <= StoredPercent(rest[0].store).value
    requires rest[0].progress.Some? ==> o.progress.value <= rest[0].progress.value
    ensures Rising(Writes([o] + rest))
  {
    var v, w := o.progress.value, Writes(rest);
    assert v <= w[0].value by {
      assert w[0] == Observed(rest[0])[0] by {
        assert rest == [rest[0]] + rest[1..];
        WritesCons(rest[0], rest[1..]);
      }
    }
    assert Writes([o] + rest) == [Some(v)] + w by {
      assert Observed(o) == [Some(v)];
      WritesCons(o, rest);
    }
    RisingPrepend([Some(v)], w);
  }

  /** The writes of a last invocation that leaves 100 in the cell, after a
      share of at most 100 when it wrote one, are rising. */
  lemma {:induction false} WritesRisingLast(o: StepOutcome)
    requires StoredPercent(o.store) == Some(100)
    requires o.progress.Some? ==> o.progress.value <= 100
    ensures Rising(Writes([o]))
  {
    if o.reply.Done? && o.progress.Some? {
      assert Writes([o]) == [o.progress, Some(100)] by {
        WritesCons(o, []);
      }
    } else {
      assert Writes([o]) == [Some(100)] by {
        WritesCons(o, []);
      }
    }
  }

  /** Every percentage a run from a non-negative start writes, including the
      share a finishing invocation writes just before its 100, is a number;
      together they never decrease and end at 100. */
  lemma {:induction false} TracePolled(env: Environment, round: nat, start: int, store: Store, sheet: Sheet)
    requires 0 <= start && CountSteady(env, round)
    ensures Rising(Writes(Trace(env, round, start, store, sheet)))
    decreases MaxFiles - start
  {
    var h := HostAt(env, round);
    var o := Step(h, start, store, sheet);
    if o.reply.Continue? {
      var next := o.reply.nextIndex;
      var rest := Trace(env, round + 1, next, o.store, o.sheet);
      assert Trace(env, round, start, store, sheet) == [o] + rest by {
        TraceUnfold(env, round, start, store, sheet);
      }
      assert rest[0] == Step(HostAt(env, round + 1), next, o.store, o.sheet) by {
        TraceUnfold(env, round + 1, next, o.store, o.sheet);
      }
      assert CountSteady(env, round + 1);
      assert Total(HostAt(env, round + 1)) == Total(h);
      assert next >= 0 by {
        StepDecision(h, start, store, sheet);
      }
      TracePolled(env, round + 1, next, o.store, o.sheet);
      assert && o.progress.Some? && o.progress == StoredPercent(o.store)
             && StoredPercent(rest[0].store).Some? && o.progress.value <= StoredPercent(rest[0].store).value
             && (rest[0].progress.Some? ==> o.progress.value <= rest[0].progress.value) by {
        StepHandOver(h, HostAt(env, round + 1), start, store, sheet);
      }
      WritesRisingCons(o, rest);
    } else {
      assert Trace(env, round, start, store, sheet) == [o] by {
        TraceUnfold(env, round, start, store, sheet);
      }
      assert StoredPercent(o.store) == Some(100) && (o.progress.Some? ==> o.progress.value <= 100) by {
        StepPercent(h, start, store, sheet);
        StepWritten(h, start, store, sheet);
      }
      WritesRisingLast(o);
    }
  }
}
