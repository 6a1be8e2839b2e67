/**
 The agent's durable traffic spool: deltas wait in `pending`, move as a block into
 an in-flight report with its own ID, and leave when that ID is acknowledged. The
 spool file is what a restarted agent remembers.
 */
module TrafficSpool {
  import opened Text
  import opened Traffic

  datatype SpoolFile = SpoolFile(pending: seq<Delta>, inFlightID: string, inFlight: seq<Delta>)

  datatype Report = Report(id: string, deltas: seq<Delta>)

  /** Fields of the runtime that concern traffic, with the file on disk. */
  datatype Spool = Spool(
    loaded: bool,
    pending: seq<Delta>,
    inFlightID: string,
    inFlight: seq<Delta>,
    disk: Option<SpoolFile>)

  /** The first use after a start reads the file, and falls back to nothing. */
  function Load(s: Spool): Spool {
    if s.loaded then s
    else match s.disk
      case None => s.(loaded := true)
      case Some(file) =>
        var id := TrimSpace(file.inFlightID);
        var inFlight := Merge(Clean(file.inFlight));
        if id == "" || inFlight == []
        then Spool(true, Merge(Clean(file.pending)), "", [], s.disk)
        else Spool(true, Merge(Clean(file.pending)), id, inFlight, s.disk)
  }

  /** A failed write leaves the previous file in place. */
  function Persist(s: Spool, written: bool): Spool {
    if !written then s
    else if s.pending == [] && s.inFlight == [] then s.(disk := None)
    else s.(disk := Some(SpoolFile(s.pending, s.inFlightID, s.inFlight)))
  }

  function Queue(s: Spool, deltas: seq<Delta>, written: bool): Spool {
    var normalized := Merge(Clean(deltas));
    if normalized == [] then s
    else
      var loaded := Load(s);
      Persist(loaded.(pending := Merge(Clean(loaded.pending + normalized))), written)
  }

  /** Promotes the pending block to a report when none is in flight. */
  function Attach(s: Spool, freshID: string, written: bool): Spool {
    var loaded := Load(s);
    if loaded.inFlightID == "" && loaded.pending != []
    then Persist(loaded.(inFlightID := freshID, inFlight := loaded.pending, pending := []), written)
    else loaded
  }

  function Attached(s: Spool): Option<Report> {
    if s.inFlightID == "" || s.inFlight == [] then None else Some(Report(s.inFlightID, s.inFlight))
  }

  function Acknowledge(s: Spool, reportID: string, written: bool): Spool {
    var id := TrimSpace(reportID);
    if id == "" then s
    else
      var loaded := Load(s);
      if id != loaded.inFlightID then loaded
      else Persist(loaded.(inFlightID := "", inFlight := []), written)
  }

  /** What a new process starts from: the file and nothing else. */
  function Restart(s: Spool): Spool {
    Spool(false, [], "", [], s.disk)
  }

  /** The spool as the agent runs it. */
  class NodeRuntime {
    var trafficSpoolLoaded: bool
    var trafficPending: seq<Delta>
    var trafficInFlightID: string
    var trafficInFlight: seq<Delta>
    var spoolFile: Option<SpoolFile>

    ghost function State(): Spool
      reads this
    {
      Spool(trafficSpoolLoaded, trafficPending, trafficInFlightID, trafficInFlight, spoolFile)
    }

    constructor (file: Option<SpoolFile>)
      ensures State() == Spool(false, [], "", [], file)
    {
      trafficSpoolLoaded, trafficPending, trafficInFlightID, trafficInFlight := false, [], "", [];
      spoolFile := file;
    }

    method LoadTrafficSpool()
      modifies this
      ensures State() == Load(old(State()))
    {
      if trafficSpoolLoaded { return; }
      trafficSpoolLoaded := true;
      if spoolFile.None? { return; }
      trafficPending := MergeDeltas(spoolFile.value.pending, true);
      trafficInFlightID := TrimSpace(spoolFile.value.inFlightID);
      trafficInFlight := MergeDeltas(spoolFile.value.inFlight, true);
      if trafficInFlightID == "" || trafficInFlight == [] {
        trafficInFlightID, trafficInFlight := "", [];
      }
    }

    method PersistTrafficSpool(written: bool)
      modifies this
      ensures State() == Persist(old(State()), written)
    {
      if !written { return; }
      if trafficPending == [] && trafficInFlight == [] {
        spoolFile := None;
      } else {
        spoolFile := Some(SpoolFile(trafficPending, trafficInFlightID, trafficInFlight));
      }
    }

    method QueueTrafficDeltas(deltas: seq<Delta>, written: bool)
      modifies this
      ensures State() == Queue(old(State()), deltas, written)
    {
      var normalized := MergeDeltas(deltas, true);
      if normalized == [] { return; }
      LoadTrafficSpool();
      trafficPending := MergeDeltas(trafficPending + normalized, true);
      PersistTrafficSpool(written);
    }

    method AttachTrafficReport(freshID: string, written: bool) returns (report: Option<Report>)
      modifies this
      ensures State() == Attach(old(State()), freshID, written)
      ensures report == Attached(State())
    {
      LoadTrafficSpool();
      if trafficInFlightID == "" && trafficPending != [] {
        trafficInFlightID := freshID;
        trafficInFlight := trafficPending;
        trafficPending := [];
        PersistTrafficSpool(written);
      }
      if trafficInFlightID == "" || trafficInFlight == [] {
        return None;
      }
      return Some(Report(trafficInFlightID, trafficInFlight));
    }

    method AcknowledgeTrafficReport(reportID: string, written: bool)
      modifies this
      ensures State() == Acknowledge(old(State()), reportID, written)
    {
      var id := TrimSpace(reportID);
      if id == "" { return; }
      LoadTrafficSpool();
      if id != trafficInFlightID { return; }
      trafficInFlightID, trafficInFlight := "", [];
      PersistTrafficSpool(written);
    }
  }
}
