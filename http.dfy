/**
 * The slice of the Fetch API the handlers use: parsed URLs with their query
 * pairs, requests, the ordered header list of a response (`Headers`, updated in
 * place by `append` and `set`), and responses.
 *
 * Header names are kept lower-cased, as Fetch stores them; the handlers' names
 * ("set-cookie", "location") are written that way here.
 */
module Http {
  import opened Wrappers
  import Sequences

  /** One `name: value` pair of a header list or of a query string. */
  type Pair = (string, string)

  /** The parts of a parsed `URL` that the handlers read or assign. */
  datatype Url = Url(origin: string, pathname: string, search: seq<Pair>, hash: string)

  /** An incoming request: its URL and its `Cookie` header, `None` when the header is missing. */
  datatype Request = Request(url: Url, cookie: Option<string>)

  /** The names of a pair list, in order. */
  function Names(pairs: seq<Pair>): (r: seq<string>)
    ensures |r| == |pairs| && forall i :: 0 <= i < |pairs| ==> r[i] == pairs[i].0
  {
    if pairs == [] then [] else [pairs[0].0] + Names(pairs[1..])
  }

  /**
   * `URLSearchParams.get(name)` (and `Headers.get` on a list with one entry per name):
   * the value of the first pair called `name`, `None` when there is none.
   */
  function QueryGet(pairs: seq<Pair>, name: string): (r: Option<string>)
    ensures r.None? <==> name !in Names(pairs)
  {
    if pairs == [] then None
    else if pairs[0].0 == name then Some(pairs[0].1)
    else QueryGet(pairs[1..], name)
  }

  /** `QueryGet` looks at the head pair first, then at the rest. */
  lemma QueryGetCons(p: Pair, rest: seq<Pair>, name: string)
    ensures QueryGet([p] + rest, name) == if p.0 == name then Some(p.1) else QueryGet(rest, name)
  {
    assert ([p] + rest)[1..] == rest;
  }

  /** The first pair called `name` is the one `QueryGet` finds. */
  lemma {:induction false} QueryGetFirst(pairs: seq<Pair>, i: nat)
    requires i < |pairs| && forall j :: 0 <= j < i ==> pairs[j].0 != pairs[i].0
    ensures QueryGet(pairs, pairs[i].0) == Some(pairs[i].1)
  {
    if i > 0 {
      QueryGetFirst(pairs[1..], i - 1);
    }
  }

  /** The values of the entries called `name`, in list order. */
  function Values(entries: seq<Pair>, name: string): seq<string>
  {
    if entries == [] then []
    else if entries[0].0 == name then [entries[0].1] + Values(entries[1..], name)
    else Values(entries[1..], name)
  }

  /** The entries not called `name`, in list order. */
  function Without(entries: seq<Pair>, name: string): (r: seq<Pair>)
    ensures Values(r, name) == []
    ensures forall n :: n != name ==> Values(r, n) == Values(entries, n)
    ensures forall p :: p in r <==> p in entries && p.0 != name
    ensures |r| <= |entries|
  {
    if entries == [] then []
    else if entries[0].0 == name then Without(entries[1..], name)
    else
      var rest := Without(entries[1..], name);
      assert ([entries[0]] + rest)[1..] == rest;
      [entries[0]] + rest
  }

  /** Removing the entries called `name` twice removes no more than once. */
  lemma {:induction false} WithoutTwice(entries: seq<Pair>, name: string)
    ensures Without(Without(entries, name), name) == Without(entries, name)
  {
    if entries != [] {
      WithoutTwice(entries[1..], name);
      if entries[0].0 != name {
        var w := Without(entries, name);
        assert w[0] == entries[0] && w[1..] == Without(entries[1..], name);
      }
    }
  }

  /** `Values` distributes over concatenation. */
  lemma {:induction false} ValuesAppend(a: seq<Pair>, b: seq<Pair>, name: string)
    ensures Values(a + b, name) == Values(a, name) + Values(b, name)
  {
    if a != [] {
      ValuesAppend(a[1..], b, name);
      assert (a + b)[0] == a[0] && (a + b)[1..] == a[1..] + b;
    } else {
      assert a + b == b;
    }
  }

  /** `Without` distributes over concatenation. */
  lemma {:induction false} WithoutAppend(a: seq<Pair>, b: seq<Pair>, name: string)
    ensures Without(a + b, name) == Without(a, name) + Without(b, name)
  {
    if a != [] {
      var head, tail := a[0], a[1..];
      WithoutAppend(tail, b, name);
      Sequences.HeadTail(a, b);
      WithoutCons(head, tail + b, name);
      WithoutCons(head, tail, name);
      Sequences.ConcatAssoc([head], Without(tail, name), Without(b, name));
    } else {
      assert a + b == b;
    }
  }

  /** `Without` on a list that starts with `p`: `p` is dropped exactly when it is called `name`. */
  lemma WithoutCons(p: Pair, s: seq<Pair>, name: string)
    ensures Without([p] + s, name) == if p.0 == name then Without(s, name) else [p] + Without(s, name)
  {
    assert ([p] + s)[0] == p && ([p] + s)[1..] == s;
  }

  /**
   * `Headers.set(name, value)`: when the list holds entries called `name`, the first
   * takes the new value and the others are removed; otherwise the pair is appended.
   * Afterwards `name` has exactly the one value, and every other entry is where it was.
   */
  function SetEntry(entries: seq<Pair>, name: string, value: string): (r: seq<Pair>)
    ensures Values(r, name) == [value]
    ensures Without(r, name) == Without(entries, name)
    ensures Values(entries, name) == [] ==> r == entries + [(name, value)]
  {
    if entries == [] then [(name, value)]
    else if entries[0].0 == name then
      WithoutTwice(entries[1..], name);
      [(name, value)] + Without(entries[1..], name)
    else
      [entries[0]] + SetEntry(entries[1..], name, value)
  }

  /** A response's header list: `append` adds at the end, `set` replaces. */
  class Headers {
    var entries: seq<Pair>

    /** An empty header list. */
    constructor ()
      ensures entries == []
    {
      entries := [];
    }

    /** `headers.append(name, value)`: the pair goes at the end; every earlier entry stays. */
    method Append(name: string, value: string)
      modifies this
      ensures entries == old(entries) + [(name, value)]
    {
      entries := entries + [(name, value)];
    }

    /** `headers.set(name, value)`. */
    method Set(name: string, value: string)
      modifies this
      ensures entries == SetEntry(old(entries), name, value)
    {
      entries := SetEntry(entries, name, value);
    }
  }

  /** The observable state of a response: status, body text and header list. */
  datatype ResponseValue = ResponseValue(status: int, body: Option<string>, headers: seq<Pair>)

  /** The header a string body gives a new response. */
  const TextContentType: Pair := ("content-type", "text/plain;charset=UTF-8")

  /** What `new Response(body, { status })` holds before any header is added. */
  function NewResponse(body: Option<string>, status: int): (r: ResponseValue)
    ensures r.status == status && r.body == body
    ensures body.None? ==> r.headers == []
    ensures body.Some? ==> r.headers == [TextContentType]
    ensures body.Some? ==> Values(r.headers, "content-type") == ["text/plain;charset=UTF-8"]
  {
    ResponseValue(status, body, if body.Some? then [TextContentType] else [])
  }

  /** A response object: its status and body are fixed, its header list is updated in place. */
  class Response {
    const status: int
    const body: Option<string>
    const headers: Headers

    /** `new Response(body, { status })`. */
    constructor (body: Option<string>, status: int)
      ensures fresh(headers)
      ensures Value() == NewResponse(body, status)
    {
      this.status := status;
      this.body := body;
      var h := new Headers();
      if body.Some? {
        h.Append(TextContentType.0, TextContentType.1);
      }
      this.headers := h;
    }

    /** The response as the client receives it. */
    function Value(): ResponseValue
      reads this, headers
    {
      ResponseValue(status, body, headers.entries)
    }
  }
}
