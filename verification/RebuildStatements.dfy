/** What single statements of the rebuild do, from any state. */
module RebuildStatements {
  import opened Options
  import opened TimeBuckets
  import opened TimeProjection

  /** An ingest keeps a clean projection clean if it is of the same zone and current, and starts a clean one in an empty
      database; otherwise it leaves a dirty one. */
  lemma IngestStaysCleanIff(cal: Calendar, s: State, n: Neuron, zone: Zone)
    requires forall m :: m in s.db.neurons ==> m.id != n.id
    ensures var after, p := Next(cal, s, Ingest(n, zone)).db, s.db.projection;
            && after.neurons == s.db.neurons + {n} && after.revision == s.db.revision + 1
            && after.projection.Some? && after.projection.value.zone == zone && after.projection.value.revision == after.revision
            && (after.projection.value.status.Clean? <==>
                  if p.None? then s.db.revision == 0
                  else p.value.status.Clean? && p.value.zone == zone && p.value.revision == s.db.revision)
            && (!after.projection.value.status.Clean? ==> after.projection.value.status.Dirty? && after.live == s.db.live)
  {
  }

  /** Any other change of the neurons leaves the projection, if there is one, dirty at the new revision. */
  lemma MutationDirties(cal: Calendar, s: State, ns: set<Neuron>, live: Tables)
    requires UniqueIds(ns)
    ensures var after := Next(cal, s, Mutate(ns, live)).db;
            && after.neurons == ns && after.revision == s.db.revision + 1 && after.job == s.db.job
            && (after.projection.None? <==> s.db.projection.None?)
            && (after.projection.Some? ==>
                  after.projection.value == Projection(Dirty, s.db.projection.value.zone, after.revision))
  {
  }

  /** A worker takes up the job it has seen if that has not failed and is of its zone and the current revision: where the
      job's cursor stands if it is being built, and at the claim if it is ready.  Otherwise it replaces it. */
  lemma ResumesIff(cal: Calendar, s: State, w: nat, inp: Input)
    requires w in s.workers && s.workers[w].pc.Deciding? && !s.workers[w].checking
    ensures var k, after := s.workers[w], WorkerStep(cal, s, w, inp);
            var seen := k.pc.seen;
            && after.db == s.db && w in after.workers
            && (after.workers[w].pc.Replacing? <==>
                  seen.None? || seen.value.status.Failed? || seen.value.zone != k.zone || seen.value.revision != s.db.revision)
            && (!after.workers[w].pc.Replacing? ==>
                  && after.workers[w].pc == (if seen.value.status.Ready? then Claim else BuildRead)
                  && after.workers[w].generation == seen.value.generation
                  && after.workers[w].revision == s.db.revision && after.workers[w].cursor == seen.value.cursor)
  {
  }

  /** The assertion in front of a statement lets the worker go on exactly if its revision is the current one. */
  lemma AssertionStops(cal: Calendar, s: State, w: nat, inp: Input)
    requires w in s.workers && s.workers[w].checking
    ensures var k, after := s.workers[w], WorkerStep(cal, s, w, inp);
            && after.db == s.db && w in after.workers && !after.workers[w].checking
            && (s.db.revision == k.revision ==> after.workers[w].pc == k.pc)
            && (s.db.revision != k.revision ==> after.workers[w].pc.FailJob?)
  {
  }

  /** A page of entries is added to a job of the worker's generation whatever its status, but only one that is still
      being built for the worker's revision has its cursor moved. */
  lemma PageMovesCursorIff(cal: Calendar, s: State, w: nat, inp: Input, page: set<Neuron>)
    requires w in s.workers && s.workers[w].pc == BuildWrite(page) && !s.workers[w].checking && page != {}
    requires s.db.job.Some? && s.db.job.value.generation == s.workers[w].generation
    ensures var k, j, after := s.workers[w], s.db.job.value, WorkerStep(cal, s, w, inp).db;
            && after.job.Some? && after.live == s.db.live && after.job.value.status == j.status
            && after.job.value.staged.entries == j.staged.entries + PlanEntries(cal, page, k.zone)
            && (j.status.Building? && j.revision == k.revision ==> after.job.value.cursor == Some(LastOf(page)))
            && (!j.status.Building? || j.revision != k.revision ==> after.job.value.cursor == j.cursor)
  {
  }

  /** A page of the snapshot is written exactly if none of its neurons is in the snapshot yet, since each may be there
      once. */
  lemma SnapshotPageIff(cal: Calendar, s: State, w: nat, inp: Input, page: set<Neuron>, id: nat)
    requires w in s.workers && s.workers[w].pc == SnapWrite(page) && !s.workers[w].checking && page != {}
    requires s.db.job.Some? && s.db.job.value.generation == s.workers[w].generation
    ensures var j, after := s.db.job.value, WorkerStep(cal, s, w, inp);
            var fits := forall n :: n in page ==> n.id !in j.staged.active;
            && w in after.workers && after.db.job.Some?
            && (after.workers[w].pc.FailJob? <==> !fits)
            && (id in after.db.job.value.staged.active <==> id in j.staged.active || (fits && exists n :: n in page && n.id == id))
  {
  }

  /** A claim goes through exactly on a ready job of the worker's generation and revision that has no token or whose lease
      has ended. */
  lemma ClaimsIff(cal: Calendar, s: State, w: nat, inp: Input)
    requires w in s.workers && s.workers[w].pc.Claim? && !s.workers[w].checking && inp.id !in s.db.used
    ensures var k, after := s.workers[w], WorkerStep(cal, s, w, inp);
            && w in after.workers
            && (after.workers[w].pc.Publish? <==>
                  && s.db.job.Some? && s.db.job.value.generation == k.generation && s.db.job.value.revision == k.revision
                  && s.db.job.value.status.Ready? && (s.db.job.value.token.None? || s.db.job.value.leaseUntil < inp.now))
            && (!after.workers[w].pc.Publish? ==> after.workers[w].pc.FailJob? && after.db == s.db)
  {
  }

  /** The transactions that publish and finish go through exactly on a ready job of the worker's generation and revision
      that carries the worker's token; finishing also needs that revision to be the current one. */
  lemma GuardsAre(cal: Calendar, s: State, w: nat, inp: Input)
    requires w in s.workers && !s.workers[w].checking
    ensures var k, after := s.workers[w], WorkerStep(cal, s, w, inp);
            var owns := s.db.job.Some? && k.token.Some?
                        && s.db.job.value.generation == k.generation && s.db.job.value.revision == k.revision
                        && s.db.job.value.status.Ready? && s.db.job.value.token == k.token;
            && w in after.workers
            && (k.pc.Publish? ==> (after.workers[w].pc.Finish? <==> owns) && (!owns ==> after.workers[w].pc.FailJob? && after.db == s.db))
            && (k.pc.Finish? ==> (after.workers[w].pc.Idle? <==> owns && s.db.revision == k.revision))
            && (k.pc.Finish? && !after.workers[w].pc.Idle? ==> after.workers[w].pc.FailJob? && after.db == s.db)
  {
  }

  /** What is published: the staged entries of neurons in the snapshot, the staged buckets with such an entry, and the
      staged links. */
  lemma PublishedAre(st: Staged, e: Entry, b: Bucket)
    ensures e in Published(st).entries <==> e in st.entries && e.neuronId in st.active
    ensures b in Published(st).buckets <==> b in st.buckets && exists x :: x in st.entries && x.neuronId in st.active && x.bucket == b
    ensures Published(st).links == st.links
  {
  }
}
