/** The driver proper: the per-device session (`struct xiaomiff_device`), its
    rumble callback and worker, and the attach (probe, init) and detach
    (remove) paths. Kernel services are modelled by `Platform` outcomes and
    by the device's transcript of transport requests. */
module XiaomiFF {
  import opened Rumble
  import opened Hid
  import Dispatch

  /** The six values written at init: both motors off. */
  const MotorsOff: seq<int> := [0, 0, 0, 0, 0, 0]

  /** Results of the kernel services the driver calls, chosen by the environment:
      hid_parse, hid_hw_start, whether kzalloc succeeds, input_ff_create_memless. */
  datatype Platform = Platform(parse: int, hwStart: int, allocOk: bool, ffCreate: int)

  /** Where a session is in its life. */
  datatype Lifecycle =
    | Allocated  // kzalloc'ed, field and hdev recorded, work not yet initialised
    | Armed      // INIT_WORK done: play may queue the worker
    | Freed      // kfree'd because input_ff_create_memless failed
    | Detached   // remove cancelled its work and cleared drvdata; freeing it is left to the memless layer

  /** What xiaomi_remove does with the drvdata it finds. The two faults are the
      dereference of a NULL or of a freed pointer at lines 150-152. */
  datatype RemoveOutcome = Removed | NullDrvdata | UseAfterFree

  datatype Option<T> = None | Some(value: T)

  /** A HID device, as far as this driver sees it. */
  class Device {
    /** The feature reports hid_parse found, in list order. */
    const featureReports: seq<Report>
    /** hid_get_drvdata / hid_set_drvdata. */
    var drvdata: Session?
    /** Every request the driver has issued to the transport. */
    var transcript: seq<Request>
    /** FF_RUMBLE in the input device's ffbit. */
    var rumbleCapable: bool
    /** The data pointer registered with input_ff_create_memless, if any. */
    var ffPlay: Session?

    constructor (featureReports: seq<Report>)
      ensures this.featureReports == featureReports
      ensures drvdata == null && ffPlay == null && transcript == [] && !rumbleCapable
    {
      this.featureReports := featureReports;
      drvdata := null;
      transcript := [];
      rumbleCapable := false;
      ffPlay := null;
    }

    /** A session that drvdata points to belongs to this device. */
    ghost predicate Valid()
      reads this
    {
      drvdata != null ==> drvdata.Valid() && drvdata.hdev == this
    }
  }

  /** `struct xiaomiff_device`: the status field whose buffer play writes and
      the worker transmits, the device, and the state of its one work item. */
  class Session {
    const field: Field
    const hdev: Device
    var pending: bool
    var lifecycle: Lifecycle

    /** The recorded field is the validated six-value field. */
    ghost predicate Valid()
    {
      field.Valid() && field.reportCount == MsgLength
    }

    /** The value-level view the dispatch model speaks about. */
    function State(): (w: Dispatch.Work)
      requires Valid()
      reads this, field.value
    {
      Dispatch.Work(field.value[..], pending)
    }

    /** kzalloc plus the two assignments of lines 99-100. */
    constructor (field: Field, hdev: Device)
      ensures this.field == field && this.hdev == hdev
      ensures !pending && lifecycle == Allocated
    {
      this.field := field;
      this.hdev := hdev;
      pending := false;
      lifecycle := Allocated;
    }

    /** schedule_work: queue the work item unless it is already queued;
        `queued` is schedule_work's return value. */
    method Schedule() returns (queued: bool)
      modifies this`pending
      ensures queued == !old(pending)
      ensures pending
    {
      queued := !pending;
      pending := true;
    }

    /** xiaomiff_play: write the weak byte to value[0] and the strong byte to
        value[1], queue the worker, report success. The memless force-feedback
        layer calls it only for a session it was registered with. */
    method Play(effect: RumbleEffect) returns (r: int)
      requires Valid() && lifecycle == Armed
      modifies this`pending, field.value
      ensures r == 0
      ensures field.value[..] == Staged(old(field.value[..]), effect)
      ensures pending
      ensures State() == Dispatch.Step(old(State()), Dispatch.Play(effect)).next
    {
      var strong := Scale(effect.strongMagnitude);
      var weak := Scale(effect.weakMagnitude);
      field.value[0] := weak;
      field.value[1] := strong;
      var _ := Schedule();
      r := 0;
    }

    /** xiaomiff_worker: one set-report of the field's values as they are now. */
    method Worker()
      requires Valid()
      modifies hdev`transcript
      ensures hdev.transcript == old(hdev.transcript) + [SetReport(field.value[..])]
    {
      hdev.transcript := hdev.transcript + [SetReport(field.value[..])];
    }

    /** The workqueue turning to this work item: a queued item is unqueued and
        the worker runs; otherwise nothing happens. */
    method RunPendingWork() returns (ran: bool)
      requires Valid()
      modifies this`pending, hdev`transcript
      ensures ran == old(pending) && !pending
      ensures unchanged(field.value)
      ensures hdev.transcript == old(hdev.transcript) + if ran then [SetReport(field.value[..])] else []
      ensures var o := Dispatch.Step(old(State()), Dispatch.Run);
              State() == o.next && hdev.transcript == old(hdev.transcript) + SetReports(o.sent)
    {
      ran := pending;
      if pending {
        pending := false;
        Worker();
      }
    }

    /** cancel_work_sync: unqueue the item; `wasPending` is its return value.
        With runs modelled as atomic steps there is no running worker to wait for.
        The call is recorded so that its place among the requests is visible. */
    method CancelWorkSync() returns (wasPending: bool)
      requires Valid()
      modifies this`pending, hdev`transcript
      ensures wasPending == old(pending) && !pending
      ensures State() == Dispatch.Step(old(State()), Dispatch.Cancel).next
      ensures hdev.transcript == old(hdev.transcript) + [CancelSync]
    {
      wasPending := pending;
      pending := false;
      hdev.transcript := hdev.transcript + [CancelSync];
    }
  }

  /** The layout check of xiaomiff_init: a first feature report exists, it has
      a field, and that field carries exactly six values. */
  predicate LayoutOk(reports: seq<Report>)
  {
    |reports| > 0 && |reports[0].fields| >= 1 && reports[0].fields[0].reportCount == MsgLength
  }

  /** The buffer xiaomiff_init may write: that of the first report's first field. */
  function ReportBuffer(reports: seq<Report>): (b: set<array<int>>)
    ensures LayoutOk(reports) ==> b == {reports[0].fields[0].value}
  {
    if |reports| > 0 && |reports[0].fields| > 0 then {reports[0].fields[0].value} else {}
  }

  /** The value xiaomiff_init returns. */
  function InitError(reports: seq<Report>, p: Platform): (err: int)
    ensures err == 0 <==> LayoutOk(reports) && p.allocOk && p.ffCreate == 0
    ensures !LayoutOk(reports) ==> err == -ENODEV
    ensures LayoutOk(reports) && !p.allocOk ==> err == -ENOMEM
    ensures LayoutOk(reports) && p.allocOk ==> err == p.ffCreate
  {
    if !LayoutOk(reports) then -ENODEV
    else if !p.allocOk then -ENOMEM
    else p.ffCreate
  }

  /** The requests xiaomiff_init issues: one set-report of the zeroed buffer
      and one wait when it succeeds, none on any failure. */
  function InitRequests(reports: seq<Report>, p: Platform): (rs: seq<Request>)
    ensures InitError(reports, p) == 0 ==> rs == [SetReport(MotorsOff), WaitIdle]
    ensures InitError(reports, p) != 0 ==> rs == []
  {
    if InitError(reports, p) == 0 then [SetReport(MotorsOff), WaitIdle] else []
  }

  /** What xiaomiff_init leaves behind apart from its requests. A bad layout
      or a failed allocation changes nothing. A failed input_ff_create_memless
      leaves drvdata pointing at the freed session and the buffer untouched.
      Success leaves an armed, idle session over a zeroed buffer, registered
      as the memless device's data. */
  twostate predicate InitEffects(hdev: Device, p: Platform)
    reads hdev, hdev.drvdata, ReportBuffer(hdev.featureReports)
  {
    var reports := hdev.featureReports;
    if !LayoutOk(reports) || !p.allocOk then
      && hdev.drvdata == old(hdev.drvdata)
      && hdev.rumbleCapable == old(hdev.rumbleCapable)
      && hdev.ffPlay == old(hdev.ffPlay)
      && unchanged(ReportBuffer(reports))
    else
      var s := hdev.drvdata;
      && s != null && fresh(s)
      && s.field == reports[0].fields[0] && s.hdev == hdev
      && !s.pending
      && hdev.rumbleCapable
      && if p.ffCreate != 0 then
           && s.lifecycle == Freed
           && hdev.ffPlay == old(hdev.ffPlay)
           && unchanged(ReportBuffer(reports))
         else
           && s.lifecycle == Armed
           && hdev.ffPlay == s
           && s.field.value[..] == MotorsOff
  }

  /** xiaomiff_init: validate the layout, allocate the session, register the
      rumble callback, switch the motors off and arm the work item. */
  method Init(hdev: Device, p: Platform) returns (err: int)
    requires FieldsAllocated(hdev.featureReports) && hdev.Valid()
    modifies hdev, ReportBuffer(hdev.featureReports)
    ensures err == InitError(hdev.featureReports, p)
    ensures InitEffects(hdev, p)
    ensures hdev.transcript == old(hdev.transcript) + InitRequests(hdev.featureReports, p)
    ensures hdev.Valid()
  {
    var reports := hdev.featureReports;
    if |reports| == 0 {
      return -ENODEV;
    }
    var report := reports[0];
    if |report.fields| < 1 || report.fields[0].reportCount != MsgLength {
      return -ENODEV;
    }
    if !p.allocOk {
      return -ENOMEM;
    }
    var field := report.fields[0];
    assert report in reports && field in report.fields;
    assert field.Valid() && field.value.Length == MsgLength;
    var s := new Session(field, hdev);
    hdev.drvdata := s;
    hdev.rumbleCapable := true;
    if p.ffCreate != 0 {
      s.lifecycle := Freed;
      return p.ffCreate;
    }
    hdev.ffPlay := s;
    for i := 0 to MsgLength
      modifies field.value
      invariant forall j :: 0 <= j < i ==> field.value[j] == 0
    {
      field.value[i] := 0;
    }
    assert field.value[..] == MotorsOff;
    hdev.transcript := hdev.transcript + [SetReport(field.value[..]), WaitIdle];
    s.lifecycle := Armed;
    s.pending := false;
    err := 0;
  }

  /** xiaomi_probe: parse, start the hardware without the generic
      force-feedback wiring, run xiaomiff_init and return 0 whatever it returned. */
  method Probe(hdev: Device, p: Platform) returns (ret: int)
    requires FieldsAllocated(hdev.featureReports) && hdev.Valid()
    modifies hdev, ReportBuffer(hdev.featureReports)
    ensures hdev.Valid()
    ensures p.parse != 0 ==>
              ret == p.parse && unchanged(hdev) && unchanged(ReportBuffer(hdev.featureReports))
    ensures p.parse == 0 && p.hwStart != 0 ==>
              ret == p.hwStart && unchanged(hdev) && unchanged(ReportBuffer(hdev.featureReports))
    ensures p.parse == 0 && p.hwStart == 0 ==>
              && ret == 0
              && InitEffects(hdev, p)
              && hdev.transcript == old(hdev.transcript) + [Start(false)] + InitRequests(hdev.featureReports, p)
  {
    if p.parse != 0 {
      return p.parse;
    }
    if p.hwStart != 0 {
      return p.hwStart;
    }
    hdev.transcript := hdev.transcript + [Start(false)];
    var _ := Init(hdev, p);
    ret := 0;
  }

  /** xiaomi_remove: cancel the session's work, clear drvdata, close and stop
      the hardware. It dereferences drvdata unconditionally. */
  method Remove(hdev: Device) returns (outcome: RemoveOutcome)
    requires hdev.Valid()
    modifies hdev, hdev.drvdata
    ensures old(hdev.drvdata) == null ==> outcome == NullDrvdata && unchanged(hdev)
    ensures old(hdev.drvdata) != null && old(hdev.drvdata.lifecycle) == Freed ==>
              outcome == UseAfterFree && unchanged(hdev, old(hdev.drvdata))
    ensures old(hdev.drvdata) != null && old(hdev.drvdata.lifecycle) != Freed ==>
              var s := old(hdev.drvdata);
              && outcome == Removed
              && !s.pending && s.lifecycle == Detached
              && hdev.drvdata == null
              && hdev.transcript == old(hdev.transcript) + [CancelSync, Close, Stop]
              && hdev.ffPlay == old(hdev.ffPlay) && hdev.rumbleCapable == old(hdev.rumbleCapable)
    ensures hdev.Valid()
  {
    var s := hdev.drvdata;
    if s == null {
      return NullDrvdata;
    }
    if s.lifecycle == Freed {
      return UseAfterFree;
    }
    var _ := s.CancelWorkSync();
    s.lifecycle := Detached;
    hdev.drvdata := null;
    hdev.transcript := hdev.transcript + [Close, Stop];
    outcome := Removed;
  }

  /** As written: a controller without feature reports is bound (probe returns
      0), and unbinding it then dereferences a NULL drvdata. */
  method ProbeRemoveWithoutFeatureReports() returns (ret: int, outcome: RemoveOutcome)
    ensures ret == 0 && outcome == NullDrvdata
  {
    var hdev := new Device([]);
    ret := Probe(hdev, Platform(0, 0, true, 0));
    outcome := Remove(hdev);
  }

  /** As written: a first field of five values fails validation, the device is
      bound all the same, and unbinding it dereferences a NULL drvdata. */
  method ProbeRemoveWithFiveValueField() returns (ret: int, outcome: RemoveOutcome)
    ensures ret == 0 && outcome == NullDrvdata
  {
    var f := new Field(5);
    var hdev := new Device([Report([f])]);
    ret := Probe(hdev, Platform(0, 0, true, 0));
    outcome := Remove(hdev);
  }

  /** As written: when input_ff_create_memless fails the session is freed but
      drvdata still points at it; probe returns 0 and remove uses freed memory. */
  method ProbeRemoveWhenFfCreateFails() returns (ret: int, outcome: RemoveOutcome)
    ensures ret == 0 && outcome == UseAfterFree
  {
    var f := new Field(MsgLength);
    var hdev := new Device([Report([f])]);
    ret := Probe(hdev, Platform(0, 0, true, -ENOMEM));
    outcome := Remove(hdev);
  }

  /** Probe as evidently intended: an init failure is returned, after stopping
      the hardware, so the device is bound only with an armed session. */
  method ProbeChecked(hdev: Device, p: Platform) returns (ret: int)
    requires FieldsAllocated(hdev.featureReports) && hdev.Valid()
    modifies hdev, ReportBuffer(hdev.featureReports)
    ensures hdev.Valid()
    ensures ret == 0 <==> p.parse == 0 && p.hwStart == 0 && InitError(hdev.featureReports, p) == 0
    ensures p.parse != 0 ==>
              ret == p.parse && unchanged(hdev) && unchanged(ReportBuffer(hdev.featureReports))
    ensures p.parse == 0 && p.hwStart != 0 ==>
              ret == p.hwStart && unchanged(hdev) && unchanged(ReportBuffer(hdev.featureReports))
    ensures p.parse == 0 && p.hwStart == 0 ==>
              && ret == InitError(hdev.featureReports, p)
              && InitEffects(hdev, p)
              && hdev.transcript == old(hdev.transcript) + [Start(false)]
                                    + InitRequests(hdev.featureReports, p)
                                    + (if ret != 0 then [Stop] else [])
    ensures ret == 0 ==>
              && hdev.drvdata != null && fresh(hdev.drvdata)
              && hdev.drvdata.lifecycle == Armed && !hdev.drvdata.pending
              && hdev.ffPlay == hdev.drvdata
              && hdev.drvdata.field.value[..] == MotorsOff
              && hdev.transcript == old(hdev.transcript) + [Start(false), SetReport(MotorsOff), WaitIdle]
  {
    if p.parse != 0 {
      return p.parse;
    }
    if p.hwStart != 0 {
      return p.hwStart;
    }
    hdev.transcript := hdev.transcript + [Start(false)];
    ret := Init(hdev, p);
    if ret != 0 {
      hdev.transcript := hdev.transcript + [Stop];
    }
  }

  /** Bind with the corrected probe and, when it succeeds, unbind: remove never
      faults, and it leaves the session registered with the memless layer
      detached with no work queued. A failed probe leaves the device unbound,
      so the kernel never calls remove for it. */
  method AttachDetachChecked(hdev: Device, p: Platform) returns (ret: int, outcome: Option<RemoveOutcome>)
    requires FieldsAllocated(hdev.featureReports) && hdev.Valid()
    modifies hdev, ReportBuffer(hdev.featureReports)
    ensures ret == 0 <==> p.parse == 0 && p.hwStart == 0 && InitError(hdev.featureReports, p) == 0
    ensures ret == 0 <==> outcome.Some?
    ensures ret == 0 ==>
              && outcome == Some(Removed) && hdev.drvdata == null
              && hdev.ffPlay != null && !hdev.ffPlay.pending && hdev.ffPlay.lifecycle == Detached
              && hdev.transcript == old(hdev.transcript)
                                    + [Start(false), SetReport(MotorsOff), WaitIdle, CancelSync, Close, Stop]
  {
    ret := ProbeChecked(hdev, p);
    if ret == 0 {
      var o := Remove(hdev);
      outcome := Some(o);
    } else {
      outcome := None;
    }
  }
}
