/**
 * The servlet-side advice for `ConstraintViolationException`: a 400 envelope
 * whose errors map files each violation's message under the leaf name of its
 * property path, the first violation for a name winning. Unlike the reactive
 * `lastSegment`, `leafName` keeps `[...]` index groups and keeps a path that
 * ends in '.' whole.
 */
module ConstraintViolationAdvice {
  import opened Wrappers
  import opened JavaStrings
  import opened Exceptions
  import opened LinkedMaps
  import opened Http
  import opened ComApi
  import opened ComResultHandler

  /** `leafName`: the text after the last '.', when there is some. */
  function LeafName(path: string): string {
    if IsBlank(path) then path
    else
      var i := LastIndexOf(path, '.');
      if 0 <= i < |path| - 1 then path[i + 1..] else path
  }

  /** A leaf name is a suffix of the path. */
  lemma LeafNameSuffix(path: string)
    ensures |LeafName(path)| <= |path| && path[|path| - |LeafName(path)|..] == LeafName(path)
  {
    if !IsBlank(path) {
      var i := LastIndexOf(path, '.');
      if 0 <= i < |path| - 1 {
        assert |path| - |path[i + 1..]| == i + 1;
      }
    }
  }

  /** When a leaf name is not the whole path, it is the non-empty, dot-free
      text after the path's last '.'. */
  lemma LeafNameShape(path: string)
    ensures LeafName(path) != path ==>
              var r := LeafName(path);
              r != [] && '.' !in r && path == path[..|path| - |r| - 1] + "." + r
  {
    if !IsBlank(path) {
      var i := LastIndexOf(path, '.');
      if 0 <= i < |path| - 1 {
        var r := path[i + 1..];
        assert LeafName(path) == r;
        assert |path| - |r| - 1 == i;
        SplitAround(path, i);
      }
    }
  }

  /** A string is what lies before position `i`, the character there, and
      what follows. */
  lemma SplitAround(s: string, i: nat)
    requires i < |s|
    ensures s == s[..i] + [s[i]] + s[i + 1..]
  {
  }

  /** The path changes exactly when it is non-blank, has a '.', and does not
      end in one; otherwise (`"a."`, `"qty"`, a blank path) it is kept whole. */
  lemma LeafNameChangesIff(path: string)
    ensures LeafName(path) != path <==> !IsBlank(path) && '.' in path && path[|path| - 1] != '.'
  {
    if !IsBlank(path) {
      var i := LastIndexOf(path, '.');
      if 0 <= i < |path| - 1 {
        assert |path[i + 1..]| < |path|;
        assert path[|path| - 1] == path[i + 1..][|path| - i - 2];
      } else if '.' in path {
        assert i == |path| - 1;
      }
    }
  }

  /** On a non-blank path without index groups and not ending in '.', the
      servlet and reactive advices agree on the name. */
  lemma LeafNameAgreesWithLastSegment(path: string)
    requires !IsBlank(path) && '[' !in path && (path == [] || path[|path| - 1] != '.')
    ensures LeafName(path) == LastSegment(path)
  {
    var i := LastIndexOf(path, '.');
    var s := if i >= 0 then path[i + 1..] else path;
    assert '[' !in s by {
      forall j | 0 <= j < |s| ensures s[j] != '[' {
        assert s[j] == path[|path| - |s| + j];
      }
    }
    NoOpenIsGroupFree(s);
  }

  /** Where the two differ: an index group survives here. */
  lemma LeafNameKeepsIndex()
    ensures LeafName("items[2]") == "items[2]"
    ensures LastSegment("items[2]") == "items"
  {
    var q := "items[2]";
    assert !IsBlank(q) by { assert !IsWhitespace(q[0]); }
    assert '.' !in q by {
      forall j | 0 <= j < |q| ensures q[j] != '.' {
      }
    }
    LastSegmentOfIndexedName();
  }

  /** The key each violation is filed under, with its message. */
  function LeafEntries(vs: seq<Violation>): seq<(Option<string>, Option<string>)> {
    seq(|vs|, i requires 0 <= i < |vs| => (Some(LeafName(vs[i].propertyPath)), vs[i].message))
  }

  /** The `toMap` collection; `None` when a violation's message is null,
      since `LinkedHashMap.merge` throws on a null value. */
  function LeafViolationMap(vs: seq<Violation>): (r: Option<ErrorMap>)
    ensures r.Some? <==> forall i | 0 <= i < |vs| :: vs[i].message.Some?
  {
    if exists i | 0 <= i < |vs| :: vs[i].message.None? then None
    else Some(MergeFirstAll(LeafEntries(vs)))
  }

  /** The first violation with a given leaf name decides its message. */
  lemma LeafViolationFirstWins(vs: seq<Violation>, i: nat)
    requires LeafViolationMap(vs).Some?
    requires i < |vs|
    requires forall j | 0 <= j < i :: LeafName(vs[j].propertyPath) != LeafName(vs[i].propertyPath)
    ensures Lookup(LeafViolationMap(vs).value, Some(LeafName(vs[i].propertyPath))) == Some(vs[i].message)
    ensures vs[i].message.Some?
  {
    MergeFirstAllFirstWins(LeafEntries(vs), i);
  }

  /** `handleConstraintViolation`; `None` is the exception escaping the
      handler, which leaves the response as it was. */
  method HandleConstraintViolation(ex: Throwable, response: ServletResponse, now: int)
      returns (env: Option<ApiResponse>)
    requires ex.kind.ConstraintViolation?
    modifies response
    ensures env.None? <==> LeafViolationMap(ex.kind.violations).None?
    ensures env.None? ==> response.status == old(response.status) && response.contentType == old(response.contentType)
    ensures env.Some? ==> fresh(env.value)
    ensures env.Some? ==> env.value.View() == Envelope(Some(now), 400, false, None,
                                                       LeafViolationMap(ex.kind.violations), Some("Validation error"))
    ensures env.Some? ==> response.status == 400 && response.contentType == Some(APPLICATION_JSON)
  {
    var violations := LeafViolationMap(ex.kind.violations);
    if violations.None? {
      return None;
    }
    var r := new ApiResponse();
    r.SetTimestamp(Some(now));
    r.SetStatus(BAD_REQUEST);
    r.SetResult(false);
    r.SetMessage(Some("Validation error"));
    r.SetErrors(violations);
    response.SetStatus(BAD_REQUEST);
    response.SetContentType(APPLICATION_JSON);
    env := Some(r);
  }
}
