/** The parts of the HID core that the driver touches: report fields with their
    value buffers, feature reports, the requests the driver sends to the
    transport, and the error numbers it returns. */
module Hid {

  /** Linux error numbers returned (negated) by the driver. */
  const ENOMEM: int := 12
  const ENODEV: int := 19

  /** A report field (`struct hid_field`): `report_count` values in a buffer of
      signed 32-bit slots that the driver writes in place. */
  class Field {
    const reportCount: nat
    const value: array<int>

    /** The HID core allocates one value slot per reported value. */
    ghost predicate Valid()
    {
      value.Length == reportCount
    }

    constructor (reportCount: nat)
      ensures this.reportCount == reportCount
      ensures fresh(value) && Valid()
      ensures forall i :: 0 <= i < reportCount ==> value[i] == 0
    {
      this.reportCount := reportCount;
      value := new int[reportCount](_ => 0);
    }
  }

  /** A feature report (`struct hid_report`); `maxfield` is `|fields|`. */
  datatype Report = Report(fields: seq<Field>)

  /** What the HID core guarantees of every parsed report. */
  ghost predicate FieldsAllocated(reports: seq<Report>)
  {
    forall r, f :: r in reports && f in r.fields ==> f.Valid()
  }

  /** A call from the driver into the transport or the workqueue, in the order issued. */
  datatype Request =
    | SetReport(payload: seq<int>)  // hid_hw_request(..., HID_REQ_SET_REPORT) with these values
    | WaitIdle                      // hid_hw_wait
    | Start(connectFF: bool)        // hid_hw_start; connectFF is the HID_CONNECT_FF bit
    | Close                         // hid_hw_close
    | Stop                          // hid_hw_stop
    | CancelSync                    // cancel_work_sync on the session's work item

  /** The set-report requests for a sequence of payloads. */
  function SetReports(payloads: seq<seq<int>>): (rs: seq<Request>)
    ensures |rs| == |payloads|
    ensures forall i :: 0 <= i < |payloads| ==> rs[i] == SetReport(payloads[i])
  {
    if payloads == [] then [] else [SetReport(payloads[0])] + SetReports(payloads[1..])
  }
}
