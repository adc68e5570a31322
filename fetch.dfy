/**
  The pieces of the WHATWG Fetch Standard the forwarding handler depends on:
  byte-lowercasing of header names, the "set" operation of a header list
  (which `Headers.set` performs), and what the `Response` constructor does
  (section 5.5, "Response class"): its status checks, and the content type it
  adds for a string body.
 */
module Fetch {
  import opened Wrappers

  /** One header as a (name, value) pair. */
  type Header = (string, string)

  /** Lowercases one character the way header names are lowercased: only ASCII letters change. */
  function LowerChar(c: char): char
  {
    if 'A' <= c <= 'Z' then (c as int + 32) as char else c
  }

  /** Lowercase form of a header name, character by character. */
  function Lower(s: string): (r: string)
    ensures |r| == |s|
    ensures forall i :: 0 <= i < |s| ==> r[i] == LowerChar(s[i])
  {
    seq(|s|, i requires 0 <= i < |s| => LowerChar(s[i]))
  }

  /** Header names are compared case-insensitively. */
  predicate NameMatches(a: string, b: string)
  {
    Lower(a) == Lower(b)
  }

  /** Some header of `list` is called `name`, ignoring case. */
  predicate HasName(list: seq<Header>, name: string)
  {
    exists i :: 0 <= i < |list| && NameMatches(list[i].0, name)
  }

  /** A matching header that is not the first one lies in the tail. */
  lemma HasNameInTail(list: seq<Header>, name: string)
    requires HasName(list, name) && !NameMatches(list[0].0, name)
    ensures HasName(list[1..], name)
  {
    var i :| 0 <= i < |list| && NameMatches(list[i].0, name);
    assert list[1..][i - 1] == list[i];
  }

  /** Putting a header in front keeps a match. */
  lemma HasNameCons(h: Header, list: seq<Header>, name: string)
    requires HasName(list, name)
    ensures HasName([h] + list, name)
  {
    var i :| 0 <= i < |list| && NameMatches(list[i].0, name);
    assert ([h] + list)[i + 1] == list[i];
  }

  /** `list` without any header called `name`, other headers kept in order. */
  function WithoutName(list: seq<Header>, name: string): (r: seq<Header>)
    ensures !HasName(r, name)
    ensures forall h :: h in list && !NameMatches(h.0, name) ==> h in r
    ensures forall h :: h in r ==> h in list
  {
    if list == [] then []
    else if NameMatches(list[0].0, name) then WithoutName(list[1..], name)
    else [list[0]] + WithoutName(list[1..], name)
  }

  /** The first header called `name` takes `value`; later ones called `name` are dropped. */
  function SetFirst(list: seq<Header>, name: string, value: string): (r: seq<Header>)
    requires HasName(list, name)
    ensures HasName(r, name)
    ensures forall i :: 0 <= i < |r| && NameMatches(r[i].0, name) ==> r[i].1 == value
    ensures forall h :: h in list && !NameMatches(h.0, name) ==> h in r
    ensures forall h :: h in r && !NameMatches(h.0, name) ==> h in list
    decreases |list|
  {
    if NameMatches(list[0].0, name) then
      assert NameMatches(([(list[0].0, value)] + WithoutName(list[1..], name))[0].0, name);
      [(list[0].0, value)] + WithoutName(list[1..], name)
    else
      HasNameInTail(list, name);
      var rest := SetFirst(list[1..], name, value);
      HasNameCons(list[0], rest, name);
      [list[0]] + rest
  }

  /**
    "Set" of a header list, which `Headers.set(name, value)` performs: when a
    header called `name` (ignoring case) is present, the first one takes the
    new value and the others are removed; otherwise (name, value) is appended.
   */
  function HeaderSet(list: seq<Header>, name: string, value: string): (r: seq<Header>)
    ensures HasName(r, name)
    ensures forall i :: 0 <= i < |r| && NameMatches(r[i].0, name) ==> r[i].1 == value
    ensures forall h :: h in list && !NameMatches(h.0, name) ==> h in r
    ensures forall h :: h in r && !NameMatches(h.0, name) ==> h in list
  {
    if HasName(list, name) then SetFirst(list, name, value)
    else
      assert NameMatches((list + [(name, value)])[|list|].0, name);
      list + [(name, value)]
  }

  /** When no header is called `name`, setting it appends it at the end. */
  lemma HeaderSetAppends(list: seq<Header>, name: string, value: string)
    requires forall i :: 0 <= i < |list| ==> Lower(list[i].0) != Lower(name)
    ensures HeaderSet(list, name, value) == list + [(name, value)]
  {
  }

  /**
    The text of an error message carried in a JSON error body. `Said(t)` is a
    message with the text t; the other two stand for the messages of the
    RangeError and TypeError that the `Response` constructor throws, whose
    wording belongs to the runtime.
   */
  datatype ErrorText = Said(text: string) | StatusOutOfRange(status: int) | BodyWithNullBodyStatus(status: int)

  /**
    A response body: the text given to the constructor, the JSON text
    `{"error": <message>}`, or no body at all (`null`).
   */
  datatype Payload = Text(text: string) | ErrorJson(error: ErrorText) | Null

  /** A constructed response: status, header list and body. */
  datatype Response = Response(status: int, headers: seq<Header>, body: Payload)

  /** Statuses whose responses must not carry a body (101, 103, 204, 205 and 304). */
  predicate NullBodyStatus(status: int)
  {
    status == 101 || status == 103 || status == 204 || status == 205 || status == 304
  }

  /** The content type of a body given as a string (the "extract a body" algorithm). */
  const TextPlain: string := "text/plain;charset=UTF-8"

  /**
    `new Response(body, { status, headers })`: a status outside 200..599
    throws a RangeError; a non-null body with a null body status throws a
    TypeError; otherwise the response takes the given status and headers, and
    a body (always a string here) whose header list has no Content-Type gets
    `Content-Type: text/plain;charset=UTF-8` appended.
   */
  function NewResponse(body: Payload, status: int, headers: seq<Header>): (r: Result<Response, ErrorText>)
    ensures r.Ok? <==> 200 <= status <= 599 && (body.Null? || !NullBodyStatus(status))
    ensures r.Err? ==> r.error == (if 200 <= status <= 599 then BodyWithNullBodyStatus(status) else StatusOutOfRange(status))
    ensures r.Ok? ==> r.value.status == status && r.value.body == body
    ensures r.Ok? ==> |r.value.headers| >= |headers| && r.value.headers[..|headers|] == headers
    ensures r.Ok? && (body.Null? || HasName(headers, "Content-Type")) ==> r.value.headers == headers
    ensures r.Ok? && !body.Null? ==> HasName(r.value.headers, "Content-Type")
    ensures r.Ok? && !body.Null? && !HasName(headers, "Content-Type") ==>
              r.value.headers == headers + [("Content-Type", TextPlain)]
  {
    if status < 200 || status > 599 then Err(StatusOutOfRange(status))
    else if !body.Null? && NullBodyStatus(status) then Err(BodyWithNullBodyStatus(status))
    else if !body.Null? && !HasName(headers, "Content-Type") then
      var typed := headers + [("Content-Type", TextPlain)];
      assert NameMatches(typed[|headers|].0, "Content-Type");
      Ok(Response(status, typed, body))
    else Ok(Response(status, headers, body))
  }
}
