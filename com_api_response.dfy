/**
 * The six-field response envelope (a Lombok `@Data` bean with no-args and
 * all-args constructors). Null fields are `None`; `timestamp` is the
 * instant as a number.
 */
module ComApi {
  import opened Wrappers
  import opened Payloads
  import opened LinkedMaps

  /** `Map<String, String>`; keys and values may be null. */
  type ErrorMap = LinkedMap<Option<string>, Option<string>>

  /** The state of an envelope at one moment, field by field. */
  datatype Envelope = Envelope(
    timestamp: Option<int>,
    status: int,
    result: bool,
    data: Option<Payload>,
    errors: Option<ErrorMap>,
    message: Option<string>)

  class ApiResponse {
    var timestamp: Option<int>
    var status: int
    var result: bool
    var data: Option<Payload>
    var errors: Option<ErrorMap>
    var message: Option<string>

    /** The getters, all at once. */
    function View(): Envelope
      reads this
    {
      Envelope(timestamp, status, result, data, errors, message)
    }

    /** `new ApiResponse<>()`: Java's field defaults. */
    constructor ()
      ensures View() == Envelope(None, 0, false, None, None, None)
    {
      timestamp, status, result := None, 0, false;
      data, errors, message := None, None, None;
    }

    /** `new ApiResponse<>(timestamp, status, result, data, errors, message)`. */
    constructor AllArgs(timestamp: Option<int>, status: int, result: bool,
                        data: Option<Payload>, errors: Option<ErrorMap>, message: Option<string>)
      ensures View() == Envelope(timestamp, status, result, data, errors, message)
    {
      this.timestamp, this.status, this.result := timestamp, status, result;
      this.data, this.errors, this.message := data, errors, message;
    }

    method SetTimestamp(t: Option<int>)
      modifies this
      ensures View() == old(View()).(timestamp := t)
    {
      timestamp := t;
    }

    method SetStatus(s: int)
      modifies this
      ensures View() == old(View()).(status := s)
    {
      status := s;
    }

    method SetResult(b: bool)
      modifies this
      ensures View() == old(View()).(result := b)
    {
      result := b;
    }

    method SetData(d: Option<Payload>)
      modifies this
      ensures View() == old(View()).(data := d)
    {
      data := d;
    }

    method SetErrors(e: Option<ErrorMap>)
      modifies this
      ensures View() == old(View()).(errors := e)
    {
      errors := e;
    }

    method SetMessage(m: Option<string>)
      modifies this
      ensures View() == old(View()).(message := m)
    {
      message := m;
    }
  }
}
