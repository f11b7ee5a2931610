/** One object reassembled from several concurrent copies. Writers interleave
    their chunks in any order, and the cache may drop the entry at any time. */
module ChunkAssembly {
  import opened Locations
  import opened Names
  import opened TrackModel

  type WriterId = nat

  /** What a copy says besides its bytes; copies need not agree. */
  datatype Header = Header(subgroup: nat, extensions: Extensions, datagram: bool, now: int)

  datatype Step =
    | Begin(writer: WriterId, size: nat, header: Header, present: bool)
    | More(writer: WriterId, size: nat, header: Header)
    | Drop

  /** `offsets` has how many bytes of its copy each writer has delivered.
      `current` are the writers that began after the entry was last dropped. */
  datatype Assembly = Assembly(entry: Option<CacheEntry>, offsets: map<WriterId, nat>, current: set<WriterId>)

  const START := Assembly(None, map[], {})

  /** Bytes [offset, offset + size) of the object; the copy ends where the object
      does. An empty first part may come without a payload at all. */
  function ChunkOf(data: Bytes, loc: Location, header: Header, offset: nat, size: nat, present: bool): Write
    requires offset + size <= |data|
  {
    Write(loc, header.subgroup, Normal, header.extensions,
          if present || size > 0 then Some(data[offset..offset + size]) else None,
          offset + size == |data|, header.datagram, header.now, offset)
  }

  function Deliver(a: Assembly, writer: WriterId, w: Write, size: nat, begins: bool): Assembly {
    match StoreEntry(a.entry, w)
    case Reject(_) => a.(offsets := a.offsets - {writer}, current := a.current - {writer})
    case Keep(entry, _) =>
      a.(entry := entry, offsets := a.offsets[writer := w.offset + size],
         current := if begins then a.current + {writer} else a.current)
  }

  /** A writer that sends past the object's length is reset. */
  function Apply(data: Bytes, loc: Location, a: Assembly, step: Step): Assembly {
    match step
    case Begin(writer, size, header, present) =>
      if size > |data| then a
      else Deliver(a, writer, ChunkOf(data, loc, header, 0, size, present), size, true)
    case More(writer, size, header) =>
      if writer !in a.offsets then a
      else if a.offsets[writer] + size > |data| then a.(offsets := a.offsets - {writer}, current := a.current - {writer})
      else Deliver(a, writer, ChunkOf(data, loc, header, a.offsets[writer], size, true), size, false)
    case Drop => a.(entry := None, current := {})
  }

  function Run(data: Bytes, loc: Location, a: Assembly, steps: seq<Step>): Assembly
    decreases |steps|
  {
    if steps == [] then a else Run(data, loc, Apply(data, loc, a, steps[0]), steps[1..])
  }

  /** The cached bytes are a prefix of the object, and the entry is complete
      exactly when they are the whole object. */
  ghost predicate EntryOk(data: Bytes, e: CacheEntry) {
    && e.status.Normal? && e.payloadSize == |BytesOf(e.payload)|
    && BytesOf(e.payload) <= data
    && (e.complete <==> BytesOf(e.payload) == data)
  }

  /** No writer that began on the current entry is ahead of it. */
  ghost predicate AssemblyOk(data: Bytes, a: Assembly) {
    && (a.entry.Some? ==> EntryOk(data, a.entry.value))
    && (forall w :: w in a.offsets ==> a.offsets[w] <= |data|)
    && (forall w :: w in a.current ==> w in a.offsets && a.entry.Some? && a.offsets[w] <= a.entry.value.payloadSize)
  }

  lemma StoredChunkOk(data: Bytes, prior: Option<CacheEntry>, loc: Location, header: Header, offset: nat, size: nat, present: bool)
    requires offset + size <= |data| && (prior.Some? ==> EntryOk(data, prior.value))
    ensures var r := StoreEntry(prior, ChunkOf(data, loc, header, offset, size, present));
            && (r.Keep? && r.entry.Some? ==> EntryOk(data, r.entry.value))
            && (r.Keep? && prior.Some? ==> r.entry.Some? && r.entry.value.payloadSize >= prior.value.payloadSize)
            && (r.Keep? && offset == 0 ==> r.entry.Some?)
            && (r.Keep? && r.entry.Some? && (prior.None? || offset <= prior.value.payloadSize) ==>
                  r.entry.value.payloadSize >= offset + size)
  {
    var w := ChunkOf(data, loc, header, offset, size, present);
    assert BytesOf(w.payload) == data[offset..offset + size];
    if prior.Some? && Conflict(prior.value, w).None? && !prior.value.complete {
      var e := Refreshed(prior.value, w);
      var have := |BytesOf(e.payload)|;
      assert BytesOf(e.payload) == data[..have];
      if offset <= have < offset + size {
        assert BytesOf(w.payload)[have - offset..] == data[have..offset + size];
        assert data[..have] + data[have..offset + size] == data[..offset + size];
      }
    }
  }

  lemma ApplyKeepsOk(data: Bytes, loc: Location, a: Assembly, step: Step)
    requires AssemblyOk(data, a)
    ensures AssemblyOk(data, Apply(data, loc, a, step))
  {
    hide StoreEntry, EntryOk;
    match step
    case Begin(writer, size, header, present) =>
      if size <= |data| {
        StoredChunkOk(data, a.entry, loc, header, 0, size, present);
      }
    case More(writer, size, header) =>
      if writer in a.offsets && a.offsets[writer] + size <= |data| {
        StoredChunkOk(data, a.entry, loc, header, a.offsets[writer], size, true);
      }
    case Drop =>
  }

  /** Over every interleaving of writers and drops, from an absent entry: the
      cached payload is always a prefix of the object, complete exactly when it
      is the whole object. */
  lemma {:induction false} RunKeepsOk(data: Bytes, loc: Location, a: Assembly, steps: seq<Step>)
    requires AssemblyOk(data, a)
    ensures AssemblyOk(data, Run(data, loc, a, steps))
    decreases |steps|
  {
    if steps != [] {
      ApplyKeepsOk(data, loc, a, steps[0]);
      RunKeepsOk(data, loc, Apply(data, loc, a, steps[0]), steps[1..]);
    }
  }

  /** Once any writer has delivered its whole copy onto an entry that was not
      dropped meanwhile, the entry is the complete object. */
  lemma WholeCopyCompletes(data: Bytes, loc: Location, steps: seq<Step>, writer: WriterId)
    requires var a := Run(data, loc, START, steps);
             writer in a.current && writer in a.offsets && a.offsets[writer] == |data|
    ensures var a := Run(data, loc, START, steps);
            a.entry.Some? && a.entry.value.complete && BytesOf(a.entry.value.payload) == data
  {
    RunKeepsOk(data, loc, START, steps);
  }

  /** A writer whose chunk is refused is out, and the entry is as before. */
  lemma RefusedIsOut(data: Bytes, loc: Location, a: Assembly, step: Step)
    requires !step.Drop?
    requires var offset := if step.Begin? then 0 else if step.writer in a.offsets then a.offsets[step.writer] else 0;
             && (step.Begin? || step.writer in a.offsets) && offset + step.size <= |data|
             && StoreEntry(a.entry, ChunkOf(data, loc, step.header, offset, step.size, step.More? || step.present)).Reject?
    ensures Apply(data, loc, a, step) == Assembly(a.entry, a.offsets - {step.writer}, a.current - {step.writer})
  {
  }

  // --- Copies that agree ---------------------------------------------------------------

  /** A further copy is refused exactly when it has another status, another forwarding
      preference, or is whole where the cached one is whole and differs in length; for
      an empty object, also in whether it has a payload at all. */
  lemma RefusedExactly(e: CacheEntry, w: Write)
    requires e.payloadSize == |BytesOf(e.payload)|
    ensures var r := StoreEntry(Some(e), w);
            var otherLength :=
              && w.status.Normal? && e.complete && w.complete && w.offset == 0
              && (w.payload.Some? != e.payload.Some? || |BytesOf(w.payload)| != |BytesOf(e.payload)|);
            && (r.Reject? <==> w.status != e.status || otherLength || w.datagram != e.datagram)
            && (r == Reject(StatusChanged) <==> w.status != e.status)
            && (r == Reject(PayloadMismatch) <==> w.status == e.status && otherLength)
  {
  }

  /** The steps of copies that agree on how the object is forwarded. An empty object
      has nothing but its payload's presence to agree on. */
  predicate Agrees(data: Bytes, step: Step, datagram: bool, present: bool) {
    match step
    case Begin(_, _, header, given) => header.datagram == datagram && (data == [] ==> given == present)
    case More(_, _, header) => header.datagram == datagram && (data == [] ==> present)
    case Drop => true
  }

  /** How many bytes are cached, what the first copy said, and the latest copy from the
      start. */
  datatype Copy = Copy(frontier: nat, first: Header, newest: Header)

  /** What the steps alone say is cached, how far each writer has got, and which began
      since the entry was last dropped. */
  datatype Progress = Progress(copy: Option<Copy>, sent: map<WriterId, nat>, recent: set<WriterId>)

  function Extended(copy: Option<Copy>, offset: nat, size: nat, header: Header): Option<Copy> {
    match copy
    case None => if offset == 0 then Some(Copy(size, header, header)) else None
    case Some(c) =>
      Some(Copy(if offset <= c.frontier < offset + size then offset + size else c.frontier,
                c.first, if offset == 0 then header else c.newest))
  }

  function Progressed(data: Bytes, p: Progress, step: Step): Progress {
    match step
    case Begin(writer, size, header, _) =>
      if size > |data| then p
      else Progress(Extended(p.copy, 0, size, header), p.sent[writer := size], p.recent + {writer})
    case More(writer, size, header) =>
      if writer !in p.sent then p
      else if p.sent[writer] + size > |data| then p.(sent := p.sent - {writer}, recent := p.recent - {writer})
      else p.(copy := Extended(p.copy, p.sent[writer], size, header), sent := p.sent[writer := p.sent[writer] + size])
    case Drop => p.(copy := None, recent := {})
  }

  function ProgressAfter(data: Bytes, steps: seq<Step>): Progress
    decreases |steps|
  {
    if steps == [] then Progress(None, map[], {})
    else Progressed(data, ProgressAfter(data, steps[..|steps| - 1]), steps[|steps| - 1])
  }

  /** The entry is the object up to the frontier, complete exactly at its end. */
  ghost predicate Caches(data: Bytes, e: CacheEntry, c: Copy, datagram: bool, present: bool) {
    && EntryOk(data, e) && e.payloadSize == c.frontier && e.datagram == datagram
    && e.subgroup == c.first.subgroup && e.extensions == c.newest.extensions && e.cachedAt == c.newest.now
    && (data == [] ==> e.payload.Some? == present)
  }

  ghost predicate Follows(data: Bytes, a: Assembly, p: Progress, datagram: bool, present: bool) {
    && a.offsets == p.sent && a.current == p.recent && (forall w :: w in p.sent ==> p.sent[w] <= |data|)
    && a.entry.Some? == p.copy.Some? && (a.entry.Some? ==> Caches(data, a.entry.value, p.copy.value, datagram, present))
  }

  lemma StoredFollows(
    data: Bytes, prior: Option<CacheEntry>, copy: Option<Copy>, loc: Location, header: Header, offset: nat, size: nat,
    given: bool, present: bool)
    requires offset + size <= |data| && prior.Some? == copy.Some? && (data == [] ==> given == present)
    requires prior.Some? ==> Caches(data, prior.value, copy.value, header.datagram, present)
    ensures var r := StoreEntry(prior, ChunkOf(data, loc, header, offset, size, given));
            var after := Extended(copy, offset, size, header);
            && r.Keep? && r.entry.Some? == after.Some?
            && (r.entry.Some? ==> Caches(data, r.entry.value, after.value, header.datagram, present))
  {
    StoredChunkOk(data, prior, loc, header, offset, size, given);
    var w := ChunkOf(data, loc, header, offset, size, given);
    assert BytesOf(w.payload) == data[offset..offset + size];
  }

  lemma AppliedFollows(data: Bytes, loc: Location, a: Assembly, p: Progress, step: Step, datagram: bool, present: bool)
    requires Follows(data, a, p, datagram, present) && Agrees(data, step, datagram, present)
    ensures Follows(data, Apply(data, loc, a, step), Progressed(data, p, step), datagram, present)
  {
    hide StoreEntry, Caches;
    match step
    case Begin(writer, size, header, given) =>
      if size <= |data| {
        StoredFollows(data, a.entry, p.copy, loc, header, 0, size, given, present);
      }
    case More(writer, size, header) =>
      if writer in a.offsets && a.offsets[writer] + size <= |data| {
        StoredFollows(data, a.entry, p.copy, loc, header, a.offsets[writer], size, true, present);
      }
    case Drop =>
  }

  lemma {:induction false} RunAppend(data: Bytes, loc: Location, a: Assembly, steps: seq<Step>, step: Step)
    ensures Run(data, loc, a, steps + [step]) == Apply(data, loc, Run(data, loc, a, steps), step)
    decreases |steps|
  {
    if steps == [] {
      assert Run(data, loc, Apply(data, loc, a, step), []) == Apply(data, loc, a, step);
      assert (steps + [step])[1..] == [];
    } else {
      assert (steps + [step])[1..] == steps[1..] + [step];
      RunAppend(data, loc, Apply(data, loc, a, steps[0]), steps[1..], step);
    }
  }

  /** Copies that agree are never refused, however they interleave and whatever is
      dropped: the cached bytes are the object exactly up to the frontier that the steps
      say. */
  lemma {:induction false} AgreeingRunFollows(data: Bytes, loc: Location, steps: seq<Step>, datagram: bool, present: bool)
    requires forall i :: 0 <= i < |steps| ==> Agrees(data, steps[i], datagram, present)
    ensures Follows(data, Run(data, loc, START, steps), ProgressAfter(data, steps), datagram, present)
    decreases |steps|
  {
    if steps != [] {
      var init, last := steps[..|steps| - 1], steps[|steps| - 1];
      assert steps == init + [last];
      AgreeingRunFollows(data, loc, init, datagram, present);
      RunAppend(data, loc, START, init, last);
      AppliedFollows(data, loc, Run(data, loc, START, init), ProgressAfter(data, init), last, datagram, present);
    }
  }

  /** The bytes a writer sends after it began. */
  function Sent(steps: seq<Step>, writer: WriterId): nat
    decreases |steps|
  {
    if steps == [] then 0
    else
      var last := steps[|steps| - 1];
      Sent(steps[..|steps| - 1], writer) + if last.More? && last.writer == writer then last.size else 0
  }

  /** As long as nothing is dropped after it began, what a writer has sent is cached. */
  lemma {:induction false} SentIsCached(data: Bytes, before: seq<Step>, begin: Step, after: seq<Step>)
    requires begin.Begin? && begin.size + Sent(after, begin.writer) <= |data|
    requires forall step :: step in after ==> !step.Drop? && !(step.Begin? && step.writer == begin.writer)
    ensures var p := ProgressAfter(data, before + [begin] + after);
            && begin.writer in p.sent && p.sent[begin.writer] == begin.size + Sent(after, begin.writer)
            && p.copy.Some? && p.copy.value.frontier >= p.sent[begin.writer]
    decreases |after|
  {
    var steps := before + [begin] + after;
    if after == [] {
      assert steps[..|steps| - 1] == before && steps[|steps| - 1] == begin;
    } else {
      var init, last := after[..|after| - 1], after[|after| - 1];
      assert steps[..|steps| - 1] == before + [begin] + init && steps[|steps| - 1] == last;
      assert last in after && forall step :: step in init ==> step in after;
      SentIsCached(data, before, begin, init);
    }
  }

  /** A writer that sends all of the object, in chunks of any sizes, leaves the object
      cached complete: whatever agreeing writers interleave, and whatever happened
      before, as long as nothing is dropped after it began. */
  lemma DeliveredIsComplete(
    data: Bytes, loc: Location, before: seq<Step>, begin: Step, after: seq<Step>, datagram: bool, present: bool)
    requires begin.Begin? && begin.size + Sent(after, begin.writer) == |data|
    requires forall step :: step in before + [begin] + after ==> Agrees(data, step, datagram, present)
    requires forall step :: step in after ==> !step.Drop? && !(step.Begin? && step.writer == begin.writer)
    ensures var a := Run(data, loc, START, before + [begin] + after);
            a.entry.Some? && a.entry.value.complete && BytesOf(a.entry.value.payload) == data
  {
    AgreeingRunFollows(data, loc, before + [begin] + after, datagram, present);
    SentIsCached(data, before, begin, after);
  }
}
