/**
 * The older five-field envelope: no errors map, hand-written constructors,
 * getters and setters, and the static `ok` / `error` factories.
 */
module OrgApi {
  import opened Wrappers
  import opened Payloads

  datatype Envelope = Envelope(
    timestamp: Option<int>,
    status: int,
    result: bool,
    data: Option<Payload>,
    message: Option<string>)

  /** What `ok(data)` builds at instant `now`. */
  function OkView(data: Option<Payload>, now: int): (e: Envelope)
    ensures e.status == 200 && e.result && e.data == data && e.message.None?
  {
    Envelope(Some(now), 200, true, data, None)
  }

  /** What `error(status, message)` builds at instant `now`. */
  function ErrorView(status: int, message: Option<string>, now: int): (e: Envelope)
    ensures e.status == status && !e.result && e.data.None? && e.message == message
  {
    Envelope(Some(now), status, false, None, message)
  }

  /** A success built by `ok` and a failure built by `error` never coincide,
      and each is recognisable from its result flag alone. */
  lemma OkAndErrorDisjoint(data: Option<Payload>, status: int, message: Option<string>, now: int)
    ensures OkView(data, now).result && !ErrorView(status, message, now).result
    ensures OkView(data, now) != ErrorView(status, message, now)
  {
  }

  class ApiResponse {
    var timestamp: Option<int>
    var status: int
    var result: bool
    var data: Option<Payload>
    var message: Option<string>

    function View(): Envelope
      reads this
    {
      Envelope(timestamp, status, result, data, message)
    }

    constructor ()
      ensures View() == Envelope(None, 0, false, None, None)
    {
      timestamp, status, result, data, message := None, 0, false, None, None;
    }

    constructor AllArgs(timestamp: Option<int>, status: int, result: bool, data: Option<Payload>, message: Option<string>)
      ensures View() == Envelope(timestamp, status, result, data, message)
    {
      this.timestamp := timestamp;
      this.status := status;
      this.result := result;
      this.data := data;
      this.message := message;
    }

    static method Ok(data: Option<Payload>, now: int) returns (r: ApiResponse)
      ensures fresh(r) && r.View() == OkView(data, now)
    {
      r := new ApiResponse.AllArgs(Some(now), 200, true, data, None);
    }

    static method Error(status: int, message: Option<string>, now: int) returns (r: ApiResponse)
      ensures fresh(r) && r.View() == ErrorView(status, message, now)
    {
      r := new ApiResponse.AllArgs(Some(now), status, false, None, message);
    }

    method SetTimestamp(t: Option<int>)
      modifies this
      ensures View() == old(View()).(timestamp := t)
    {
      timestamp := t;
    }

    method SetStatus(s: int)
      modifies this
      ensures View() == old(View()).(status := s)
    {
      status := s;
    }

    method SetResult(b: bool)
      modifies this
      ensures View() == old(View()).(result := b)
    {
      result := b;
    }

    method SetData(d: Option<Payload>)
      modifies this
      ensures View() == old(View()).(data := d)
    {
      data := d;
    }

    method SetMessage(m: Option<string>)
      modifies this
      ensures View() == old(View()).(message := m)
    {
      message := m;
    }
  }
}
