/** Cursor pagination of the Twitter connection. Twitter splits long lists
    over pages linked by `next_cursor_str`; `singleRequest` follows the chain
    for one request and `multiRequest` for a batch, in rounds. The base
    connection's transport is a parameter (`Transport`), and the loops take
    a fuel bound because only the provider decides when a chain ends. */
module TwitterPaging {
  import opened Values
  import opened Requests

  /** The cursor properties of a response; every other property is content. */
  const CursorKeys: seq<string> := ["next_cursor", "previous_cursor", "next_cursor_str", "previous_cursor_str"]

  /** The PHP errors the pagination loops can raise. */
  datatype Error =
    | MergeOfNonArray       // `array_merge` given something that is not an array
    | PropertiesOfNonObject // `get_object_vars` given something that is not an object
    | PropertyOfString      // `$request->params[...] =` on a URL string

  /** A merge step: the new properties, or the error it raised. */
  datatype Result<T> = Ok(value: T) | Err(error: Error)

  /** A whole pagination: its result, an error, or still following cursors
      when the fuel ran out. */
  datatype Outcome<T> = Done(value: T) | Failed(error: Error) | OutOfFuel

  /** `list($key) = array_diff(array_keys($data), $cursor_keys)`: the diff
      keeps its keys, so element 0 exists only when the first property is
      not a cursor key. Otherwise `$key` is null and reads and writes go to
      the empty property name. */
  function ContentKey(fields: seq<Field>): (key: string)
    ensures key !in CursorKeys
    ensures |fields| > 0 && fields[0].name !in CursorKeys ==> key == fields[0].name
    ensures (|fields| == 0 || fields[0].name in CursorKeys) ==> key == ""
  {
    if |fields| > 0 && fields[0].name !in CursorKeys then fields[0].name else ""
  }

  /** What a page adds to the content: its content array when that is
      non-empty, nothing otherwise. */
  function PageContent(page: Value, key: string): seq<Value> {
    var c := Prop(page, key);
    if Truthy(c) && c.Arr? then c.items else []
  }

  /** One page folded into the response (the body of the pagination loop):
      non-empty page content is appended with `array_merge`, then both next
      cursors are copied from the page. A page that is not an object reads
      as null everywhere. */
  function MergePage(data: seq<Field>, key: string, page: Value): (r: Result<seq<Field>>)
    ensures r.Err? <==> Truthy(Prop(page, key)) && !(Lookup(data, key).Arr? && Prop(page, key).Arr?)
    ensures r.Err? ==> r.error == MergeOfNonArray
    ensures r.Ok? ==> Lookup(r.value, "next_cursor_str") == Prop(page, "next_cursor_str")
  {
    var add := Prop(page, key);
    if Truthy(add) && !(Lookup(data, key).Arr? && add.Arr?) then Err(MergeOfNonArray)
    else
      var merged := if Truthy(add) then Put(data, key, Arr(Lookup(data, key).items + add.items)) else data;
      var withNext := Put(merged, "next_cursor", Prop(page, "next_cursor"));
      Ok(Put(withNext, "next_cursor_str", Prop(page, "next_cursor_str")))
  }

  /** A merge copies `next_cursor` from the page. */
  lemma MergePageCursor(data: seq<Field>, key: string, page: Value)
    requires key !in CursorKeys && MergePage(data, key, page).Ok?
    ensures Lookup(MergePage(data, key, page).value, "next_cursor") == Prop(page, "next_cursor")
  {
  }

  /** A merge appends the page's content to an array content, and leaves
      any other content as it is. */
  lemma MergePageContent(data: seq<Field>, key: string, page: Value)
    requires key !in CursorKeys && MergePage(data, key, page).Ok?
    ensures Lookup(data, key).Arr? ==>
      Lookup(MergePage(data, key, page).value, key) == Arr(Lookup(data, key).items + PageContent(page, key))
    ensures !Lookup(data, key).Arr? ==> Lookup(MergePage(data, key, page).value, key) == Lookup(data, key)
  {
    var add := Prop(page, key);
    var merged := if Truthy(add) then Put(data, key, Arr(Lookup(data, key).items + add.items)) else data;
    var withNext := Put(merged, "next_cursor", Prop(page, "next_cursor"));
    assert key != "next_cursor" && key != "next_cursor_str";
    assert Lookup(withNext, key) == Lookup(merged, key);
    assert Lookup(MergePage(data, key, page).value, key) == Lookup(withNext, key);
    if !Truthy(add) {
      assert Lookup(data, key).Arr? ==> Lookup(data, key).items + PageContent(page, key) == Lookup(data, key).items;
    }
  }

  /** The cursor property names are distinct. */
  lemma CursorNames()
    ensures "previous_cursor" != "next_cursor" && "previous_cursor" != "next_cursor_str"
    ensures "previous_cursor_str" != "next_cursor" && "previous_cursor_str" != "next_cursor_str"
  {
    assert "previous_cursor"[0] == 'p' && "next_cursor_str"[0] == 'n';
  }

  /** A merge does not touch the previous cursors. */
  lemma MergePagePrevious(data: seq<Field>, key: string, page: Value)
    requires key !in CursorKeys && MergePage(data, key, page).Ok?
    ensures Lookup(MergePage(data, key, page).value, "previous_cursor") == Lookup(data, "previous_cursor")
    ensures Lookup(MergePage(data, key, page).value, "previous_cursor_str") == Lookup(data, "previous_cursor_str")
  {
    CursorNames();
    MergePageKeeps(data, key, page);
  }

  /** A merge keeps every property other than the content and the next
      cursors, the previous cursors among them. */
  lemma MergePageKeeps(data: seq<Field>, key: string, page: Value)
    requires key !in CursorKeys && MergePage(data, key, page).Ok?
    ensures forall n :: n != key && n != "next_cursor" && n != "next_cursor_str" ==>
      Lookup(MergePage(data, key, page).value, n) == Lookup(data, n)
  {
  }

  // ---------------------------------------------------------------------
  // singleRequest
  // ---------------------------------------------------------------------

  /** The pagination loop of `singleRequest`, for at most `fuel` pages: the
      final properties and the request's final state. */
  function Follow(send: Transport, req: Req, data: seq<Field>, key: string, fuel: nat): (Outcome<seq<Field>>, Req)
    decreases fuel
  {
    var cursor := Lookup(data, "next_cursor_str");
    if !Truthy(cursor) then (Done(data), req)
    else if fuel == 0 then (OutOfFuel, req)
    else
      var next := req.WithParam("cursor", cursor);
      match MergePage(data, key, send(next))
      case Ok(d) => Follow(send, next, d, key, fuel - 1)
      case Err(e) => (Failed(e), next)
  }

  /** A turn of the pagination loop whose merge went through. */
  lemma FollowOk(send: Transport, req: Req, data: seq<Field>, key: string, fuel: nat, next: Req, d: seq<Field>, rest: nat)
    requires Truthy(Lookup(data, "next_cursor_str")) && fuel > 0 && rest == fuel - 1
    requires next == req.WithParam("cursor", Lookup(data, "next_cursor_str"))
    requires MergePage(data, key, send(next)) == Ok(d)
    ensures Follow(send, req, data, key, fuel) == Follow(send, next, d, key, rest)
  {
  }

  /** A merge keeps array content an array. */
  lemma MergeKeepsArr(data: seq<Field>, key: string, page: Value, d: seq<Field>)
    requires key !in CursorKeys && MergePage(data, key, page) == Ok(d) && Lookup(data, key).Arr?
    ensures Lookup(d, key).Arr?
  {
    MergePageContent(data, key, page);
  }

  /** The loop does not run: no cursor to follow, or no fuel left. */
  lemma FollowStopped(send: Transport, req: Req, data: seq<Field>, key: string, fuel: nat)
    requires !Truthy(Lookup(data, "next_cursor_str")) || fuel == 0
    ensures Follow(send, req, data, key, fuel) == (if Truthy(Lookup(data, "next_cursor_str")) then OutOfFuel else Done(data), req)
  {
  }

  /** A turn of the pagination loop whose merge failed. */
  lemma FollowErr(send: Transport, req: Req, data: seq<Field>, key: string, fuel: nat, next: Req)
    requires Truthy(Lookup(data, "next_cursor_str")) && fuel > 0
    requires next == req.WithParam("cursor", Lookup(data, "next_cursor_str"))
    requires MergePage(data, key, send(next)).Err?
    ensures Follow(send, req, data, key, fuel) == (Failed(MergePage(data, key, send(next)).error), next)
  {
  }

  /** The properties as a response object. */
  function AsObject(o: Outcome<seq<Field>>): Outcome<Value> {
    match o
    case Done(fs) => Done(Obj(fs))
    case Failed(e) => Failed(e)
    case OutOfFuel => OutOfFuel
  }

  /** `singleRequest`: the first response, followed page by page when it is
      an object, the request pins no `cursor` and `next_cursor_str` is
      non-empty. Scalar and other responses come back unchanged. */
  function Paginate(send: Transport, req: Req, fuel: nat): (r: (Outcome<Value>, Req))
    ensures IsScalar(send(req)) ==> r == (Done(send(req)), req)
    ensures IsSet(req.params, "cursor") || !Truthy(Prop(send(req), "next_cursor_str")) ==> r == (Done(send(req)), req)
  {
    var data := send(req);
    if IsScalar(data) then (Done(data), req)
    else if data.Obj? && !IsSet(req.params, "cursor") && Truthy(Prop(data, "next_cursor_str")) then
      var (out, last) := Follow(send, req, data.fields, ContentKey(data.fields), fuel);
      (AsObject(out), last)
    else (Done(data), req)
  }
  /** The case of `Paginate` that follows cursors. */
  lemma PaginateFollows(send: Transport, req: Req, fuel: nat)
    requires send(req).Obj? && !IsSet(req.params, "cursor") && Truthy(Prop(send(req), "next_cursor_str"))
    ensures Paginate(send, req, fuel) ==
      (AsObject(Follow(send, req, send(req).fields, ContentKey(send(req).fields), fuel).0),
       Follow(send, req, send(req).fields, ContentKey(send(req).fields), fuel).1)
  {
  }

  /** `singleRequest` given a URL string rather than a request object; the
      parent sends the string through `sendUrl`. `isset` on a property of a
      string is false, so a first page that carries a cursor enters the loop,
      whose first statement assigns a property of the string and throws. */
  function PaginateUrl(sendUrl: string -> Value, url: string): (r: Outcome<Value>)
    ensures r.Failed? <==> sendUrl(url).Obj? && Truthy(Prop(sendUrl(url), "next_cursor_str"))
    ensures r.Failed? ==> r.error == PropertyOfString
    ensures !r.Failed? ==> r == Done(sendUrl(url))
  {
    var data := sendUrl(url);
    if data.Obj? && Truthy(Prop(data, "next_cursor_str")) then Failed(PropertyOfString)
    else Done(data)
  }

  /** A URL string and a request object that pins no `cursor` and gets the
      same first page: the string fails exactly where the object follows
      cursors, and otherwise both return the same response. */
  lemma PaginateUrlAgrees(sendUrl: string -> Value, url: string, send: Transport, req: Req, fuel: nat)
    requires sendUrl(url) == send(req) && !IsSet(req.params, "cursor")
    ensures PaginateUrl(sendUrl, url).Failed? ==>
      var fs := send(req).fields;
      Paginate(send, req, fuel) ==
        (AsObject(Follow(send, req, fs, ContentKey(fs), fuel).0), Follow(send, req, fs, ContentKey(fs), fuel).1)
    ensures !PaginateUrl(sendUrl, url).Failed? ==> (PaginateUrl(sendUrl, url), req) == Paginate(send, req, fuel)
  {
    if send(req).Obj? && Truthy(Prop(send(req), "next_cursor_str")) {
      PaginateFollows(send, req, fuel);
    }
  }


  /** `singleRequest` on a request object: writes each cursor it follows
      into the request's `params`, as the PHP code does through the object
      handle. The response object is local to the call, so it is a value. */
  method SingleRequest(send: Transport, request: Request, fuel: nat) returns (out: Outcome<Value>)
    modifies request
    ensures (out, request.Snapshot()) == Paginate(send, old(request.Snapshot()), fuel)
  {
    var data := send(request.Snapshot());
    if IsScalar(data) {
      return Done(data);
    }
    if data.Obj? && !IsSet(request.params, "cursor") && Truthy(Prop(data, "next_cursor_str")) {
      var key := ContentKey(data.fields);
      var fields := data.fields;
      var left := fuel;
      ghost var goal := Follow(send, request.Snapshot(), fields, key, left);
      PaginateFollows(send, request.Snapshot(), fuel);
      while Truthy(Lookup(fields, "next_cursor_str"))
        invariant Follow(send, request.Snapshot(), fields, key, left) == goal
        decreases left
      {
        if left == 0 {
          FollowStopped(send, request.Snapshot(), fields, key, left);
          return OutOfFuel;
        }
        ghost var before := request.Snapshot();
        request.params := Put(request.params, "cursor", Lookup(fields, "next_cursor_str"));
        var page := send(request.Snapshot());
        var merged := MergePage(fields, key, page);
        if merged.Err? {
          FollowErr(send, before, fields, key, left, request.Snapshot());
          return Failed(merged.error);
        }
        var rest := left - 1;
        FollowOk(send, before, fields, key, left, request.Snapshot(), merged.value, rest);
        fields := merged.value;
        left := rest;
      }
      FollowStopped(send, request.Snapshot(), fields, key, left);
      return Done(Obj(fields));
    }
    return Done(data);
  }

  /** One page fetched by the loop, with the cursor it was fetched with. */
  datatype Fetch = Fetch(cursor: Value, page: Value)

  /** The cursor chain on its own: the pages the loop requests, in order,
      each with the cursor it sends. */
  function Chain(send: Transport, req: Req, cursor: Value, fuel: nat): seq<Fetch>
    decreases fuel
  {
    if !Truthy(cursor) || fuel == 0 then []
    else
      var next := req.WithParam("cursor", cursor);
      var page := send(next);
      [Fetch(cursor, page)] + Chain(send, next, Prop(page, "next_cursor_str"), fuel - 1)
  }

  /** The content the pages of a chain add, in order. */
  function Collected(ch: seq<Fetch>, key: string): seq<Value> {
    if ch == [] then [] else PageContent(ch[0].page, key) + Collected(ch[1..], key)
  }

  /** The request of a chain, once its last page has been fetched. */
  function LastRequest(req: Req, ch: seq<Fetch>): Req {
    if ch == [] then req else req.WithParam("cursor", ch[|ch| - 1].cursor)
  }

  /** One page of the chain. */
  lemma ChainStep(send: Transport, req: Req, cursor: Value, fuel: nat, next: Req, rest: nat)
    requires Truthy(cursor) && fuel > 0 && rest == fuel - 1 && next == req.WithParam("cursor", cursor)
    ensures Chain(send, req, cursor, fuel) ==
      [Fetch(cursor, send(next))] + Chain(send, next, Prop(send(next), "next_cursor_str"), rest)
  {
  }

  /** A page whose non-empty content is not an array: merging it fails. */
  predicate BadPage(f: Fetch, key: string) {
    Truthy(Prop(f.page, key)) && !Prop(f.page, key).Arr?
  }

  /** A completed pagination holds `prefix` followed by the content the
      pages of `ch` add. */
  predicate HoldsContent(out: Outcome<seq<Field>>, key: string, prefix: seq<Value>, ch: seq<Fetch>) {
    out.Done? ==> Lookup(out.value, key) == Arr(prefix + Collected(ch, key))
  }

  /** A completed pagination keeps the previous cursors of `data` and leaves
      no next cursor. */
  predicate CursorsKept(out: Outcome<seq<Field>>, data: seq<Field>) {
    out.Done? ==>
      && !Truthy(Lookup(out.value, "next_cursor_str"))
      && Lookup(out.value, "previous_cursor") == Lookup(data, "previous_cursor")
      && Lookup(out.value, "previous_cursor_str") == Lookup(data, "previous_cursor_str")
  }

  /** A completed pagination leaves the request with the cursor of the last
      page of `ch`. */
  predicate EndsAt(r: (Outcome<seq<Field>>, Req), req: Req, ch: seq<Fetch>) {
    r.0.Done? ==> r.1 == LastRequest(req, ch)
  }

  /** A failed pagination met a bad page of `ch`; one out of fuel fetched
      `fuel` pages. */
  predicate Stopped(out: Outcome<seq<Field>>, key: string, ch: seq<Fetch>, fuel: nat) {
    && (out.Failed? ==> exists i :: 0 <= i < |ch| && BadPage(ch[i], key))
    && (out.OutOfFuel? ==> |ch| == fuel)
  }

  /** A completed pagination holds the first page's content followed by
      every later page's non-empty content, in chain order. */
  lemma {:induction false} FollowContent(send: Transport, req: Req, data: seq<Field>, key: string, fuel: nat)
    requires key !in CursorKeys && Lookup(data, key).Arr?
    ensures HoldsContent(Follow(send, req, data, key, fuel).0, key, Lookup(data, key).items,
      Chain(send, req, Lookup(data, "next_cursor_str"), fuel))
    decreases fuel
  {
    var cursor := Lookup(data, "next_cursor_str");
    if !Truthy(cursor) {
      assert Lookup(data, key).items + [] == Lookup(data, key).items;
    } else if fuel > 0 {
      var next := req.WithParam("cursor", cursor);
      var m := MergePage(data, key, send(next));
      if m.Ok? {
        var rest := fuel - 1;
        MergePageContent(data, key, send(next));
        FollowContent(send, next, m.value, key, rest);
        FollowContentStep(send, req, data, key, fuel, next, m.value, rest);
      } else {
        FollowErr(send, req, data, key, fuel, next);
      }
    }
  }

  /** The inductive step of `FollowContent`. */
  lemma FollowContentStep(send: Transport, req: Req, data: seq<Field>, key: string, fuel: nat, next: Req, d: seq<Field>, rest: nat)
    requires key !in CursorKeys && Lookup(data, key).Arr? && Truthy(Lookup(data, "next_cursor_str")) && fuel > 0 && rest == fuel - 1
    requires next == req.WithParam("cursor", Lookup(data, "next_cursor_str"))
    requires MergePage(data, key, send(next)) == Ok(d)
    requires Lookup(d, key) == Arr(Lookup(data, key).items + PageContent(send(next), key))
    requires HoldsContent(Follow(send, next, d, key, rest).0, key, Lookup(d, key).items,
      Chain(send, next, Prop(send(next), "next_cursor_str"), rest))
    ensures HoldsContent(Follow(send, req, data, key, fuel).0, key, Lookup(data, key).items,
      Chain(send, req, Lookup(data, "next_cursor_str"), fuel))
  {
    FollowOk(send, req, data, key, fuel, next, d, rest);
    ChainStep(send, req, Lookup(data, "next_cursor_str"), fuel, next, rest);
    ContentCons(Follow(send, next, d, key, rest).0, key, Lookup(data, key).items,
      Fetch(Lookup(data, "next_cursor_str"), send(next)), Chain(send, next, Prop(send(next), "next_cursor_str"), rest));
  }

  /** One more page in front of the chain moves its content out of the prefix. */
  lemma ContentCons(out: Outcome<seq<Field>>, key: string, prefix: seq<Value>, f: Fetch, ch: seq<Fetch>)
    requires HoldsContent(out, key, prefix + PageContent(f.page, key), ch)
    ensures HoldsContent(out, key, prefix, [f] + ch)
  {
    CollectedCons(f, ch, key);
    Assoc(prefix, PageContent(f.page, key), Collected(ch, key));
  }

  /** A completed pagination keeps the first page's previous cursors and
      leaves no next cursor. */
  lemma {:induction false} FollowCursors(send: Transport, req: Req, data: seq<Field>, key: string, fuel: nat)
    requires key !in CursorKeys && Lookup(data, key).Arr?
    ensures CursorsKept(Follow(send, req, data, key, fuel).0, data)
    decreases fuel
  {
    var cursor := Lookup(data, "next_cursor_str");
    if Truthy(cursor) && fuel > 0 {
      var next := req.WithParam("cursor", cursor);
      var m := MergePage(data, key, send(next));
      if m.Ok? {
        var rest := fuel - 1;
        MergeKeepsArr(data, key, send(next), m.value);
        FollowCursors(send, next, m.value, key, rest);
        FollowCursorsStep(send, req, data, key, fuel, next, m.value, rest);
      } else {
        FollowErr(send, req, data, key, fuel, next);
      }
    } else {
      FollowStopped(send, req, data, key, fuel);
    }
  }

  /** The inductive step of `FollowCursors`. */
  lemma FollowCursorsStep(send: Transport, req: Req, data: seq<Field>, key: string, fuel: nat, next: Req, d: seq<Field>, rest: nat)
    requires key !in CursorKeys && Truthy(Lookup(data, "next_cursor_str")) && fuel > 0 && rest == fuel - 1
    requires next == req.WithParam("cursor", Lookup(data, "next_cursor_str"))
    requires MergePage(data, key, send(next)) == Ok(d)
    requires CursorsKept(Follow(send, next, d, key, rest).0, d)
    ensures CursorsKept(Follow(send, req, data, key, fuel).0, data)
  {
    FollowOk(send, req, data, key, fuel, next, d, rest);
    KeepsCursors(data, key, send(next), d, Follow(send, next, d, key, rest).0);
  }

  /** A merge does not touch the previous cursors. */
  lemma KeepsCursors(data: seq<Field>, key: string, page: Value, d: seq<Field>, out: Outcome<seq<Field>>)
    requires key !in CursorKeys && MergePage(data, key, page) == Ok(d)
    requires CursorsKept(out, d)
    ensures CursorsKept(out, data)
  {
    MergePagePrevious(data, key, page);
  }

  /** A completed pagination leaves the request with the last cursor it
      followed. */
  lemma {:induction false} FollowLastRequest(send: Transport, req: Req, data: seq<Field>, key: string, fuel: nat)
    requires key !in CursorKeys && Lookup(data, key).Arr?
    ensures EndsAt(Follow(send, req, data, key, fuel), req, Chain(send, req, Lookup(data, "next_cursor_str"), fuel))
    decreases fuel
  {
    var cursor := Lookup(data, "next_cursor_str");
    if Truthy(cursor) && fuel > 0 {
      var next := req.WithParam("cursor", cursor);
      var m := MergePage(data, key, send(next));
      if m.Ok? {
        var rest := fuel - 1;
        MergeKeepsArr(data, key, send(next), m.value);
        FollowLastRequest(send, next, m.value, key, rest);
        FollowLastRequestStep(send, req, data, key, fuel, next, m.value, rest);
      } else {
        FollowErr(send, req, data, key, fuel, next);
      }
    } else {
      FollowStopped(send, req, data, key, fuel);
    }
  }

  /** The inductive step of `FollowLastRequest`. */
  lemma FollowLastRequestStep(send: Transport, req: Req, data: seq<Field>, key: string, fuel: nat, next: Req, d: seq<Field>, rest: nat)
    requires key !in CursorKeys && Truthy(Lookup(data, "next_cursor_str")) && fuel > 0 && rest == fuel - 1
    requires next == req.WithParam("cursor", Lookup(data, "next_cursor_str"))
    requires MergePage(data, key, send(next)) == Ok(d)
    requires EndsAt(Follow(send, next, d, key, rest), next, Chain(send, next, Prop(send(next), "next_cursor_str"), rest))
    ensures EndsAt(Follow(send, req, data, key, fuel), req, Chain(send, req, Lookup(data, "next_cursor_str"), fuel))
  {
    FollowOk(send, req, data, key, fuel, next, d, rest);
    ChainStep(send, req, Lookup(data, "next_cursor_str"), fuel, next, rest);
    LastRequestCons(req, Fetch(Lookup(data, "next_cursor_str"), send(next)),
      Chain(send, next, Prop(send(next), "next_cursor_str"), rest));
  }

  /** `Collected` on a chain with one more page in front. */
  lemma CollectedCons(f: Fetch, ch: seq<Fetch>, key: string)
    ensures Collected([f] + ch, key) == PageContent(f.page, key) + Collected(ch, key)
  {
    assert ([f] + ch)[1..] == ch;
  }

  /** Setting the cursor again overwrites the previous one. */
  lemma LastRequestCons(req: Req, f: Fetch, ch: seq<Fetch>)
    ensures LastRequest(req.WithParam("cursor", f.cursor), ch) == LastRequest(req, [f] + ch)
  {
    if ch != [] {
      PutPut(req.params, "cursor", f.cursor, ch[|ch| - 1].cursor);
      assert ([f] + ch)[|ch|] == ch[|ch| - 1];
    }
  }

  /** The pagination fails only on a page whose non-empty content is not an
      array, and runs out of fuel only after `fuel` pages. */
  lemma {:induction false} FollowStops(send: Transport, req: Req, data: seq<Field>, key: string, fuel: nat)
    requires key !in CursorKeys && Lookup(data, key).Arr?
    ensures Stopped(Follow(send, req, data, key, fuel).0, key, Chain(send, req, Lookup(data, "next_cursor_str"), fuel), fuel)
    decreases fuel
  {
    var cursor := Lookup(data, "next_cursor_str");
    if Truthy(cursor) && fuel > 0 {
      var next := req.WithParam("cursor", cursor);
      var m := MergePage(data, key, send(next));
      var rest := fuel - 1;
      if m.Ok? {
        MergeKeepsArr(data, key, send(next), m.value);
        FollowStops(send, next, m.value, key, rest);
        FollowStopsStep(send, req, data, key, fuel, next, m.value, rest);
      } else {
        FollowErr(send, req, data, key, fuel, next);
        ChainStep(send, req, cursor, fuel, next, rest);
        assert BadPage(Fetch(cursor, send(next)), key);
        assert ([Fetch(cursor, send(next))] + Chain(send, next, Prop(send(next), "next_cursor_str"), rest))[0] == Fetch(cursor, send(next));
      }
    }
  }

  /** The inductive step of `FollowStops`. */
  lemma FollowStopsStep(send: Transport, req: Req, data: seq<Field>, key: string, fuel: nat, next: Req, d: seq<Field>, rest: nat)
    requires Truthy(Lookup(data, "next_cursor_str")) && fuel > 0 && rest == fuel - 1
    requires next == req.WithParam("cursor", Lookup(data, "next_cursor_str"))
    requires MergePage(data, key, send(next)) == Ok(d)
    requires Stopped(Follow(send, next, d, key, rest).0, key, Chain(send, next, Prop(send(next), "next_cursor_str"), rest), rest)
    ensures Stopped(Follow(send, req, data, key, fuel).0, key, Chain(send, req, Lookup(data, "next_cursor_str"), fuel), fuel)
  {
    FollowOk(send, req, data, key, fuel, next, d, rest);
    ChainStep(send, req, Lookup(data, "next_cursor_str"), fuel, next, rest);
    StoppedCons(Follow(send, next, d, key, rest).0, key, Fetch(Lookup(data, "next_cursor_str"), send(next)),
      Chain(send, next, Prop(send(next), "next_cursor_str"), rest), rest);
  }

  /** One more page in front of the chain. */
  lemma StoppedCons(out: Outcome<seq<Field>>, key: string, f: Fetch, ch: seq<Fetch>, fuel: nat)
    requires Stopped(out, key, ch, fuel)
    ensures Stopped(out, key, [f] + ch, fuel + 1)
  {
    if out.Failed? {
      var i :| 0 <= i < |ch| && BadPage(ch[i], key);
      assert ([f] + ch)[i + 1] == ch[i];
    }
  }

  /** `singleRequest` in terms of the cursor chain of its first response. */
  lemma PaginateCollects(send: Transport, req: Req, fuel: nat)
    requires send(req).Obj? && !IsSet(req.params, "cursor") && Truthy(Prop(send(req), "next_cursor_str"))
    requires Lookup(send(req).fields, ContentKey(send(req).fields)).Arr?
    ensures var first := send(req).fields;
      var key := ContentKey(first);
      var ch := Chain(send, req, Lookup(first, "next_cursor_str"), fuel);
      var (out, last) := Paginate(send, req, fuel);
      out.Done? ==>
        && out.value.Obj?
        && Lookup(out.value.fields, key) == Arr(Lookup(first, key).items + Collected(ch, key))
        && !Truthy(Lookup(out.value.fields, "next_cursor_str"))
        && Lookup(out.value.fields, "previous_cursor") == Lookup(first, "previous_cursor")
        && Lookup(out.value.fields, "previous_cursor_str") == Lookup(first, "previous_cursor_str")
        && last == LastRequest(req, ch)
  {
    var first := send(req).fields;
    FollowContent(send, req, first, ContentKey(first), fuel);
    FollowCursors(send, req, first, ContentKey(first), fuel);
    FollowLastRequest(send, req, first, ContentKey(first), fuel);
  }

  // ---------------------------------------------------------------------
  // multiRequest
  // ---------------------------------------------------------------------

  /** Which requests a round sends again: the whole batch, as the source
      does, or only the entries that follow a cursor. */
  datatype Refetch = WholeBatch | PendingOnly

  /** The first loop of a round: an entry follows its cursor when it may
      (it got a non-null answer last round, or the caller pinned no
      `cursor`) and its data is an object with a non-empty `next_cursor_str`. */
  predicate Pending(r: Req, data: Value, answered: bool) {
    (answered || !IsSet(r.params, "cursor")) && data.Obj? && Truthy(Prop(data, "next_cursor_str"))
  }

  /** The pending flag of every entry. */
  function PendingFlags(reqs: seq<Req>, results: seq<Value>, answered: seq<bool>): (p: seq<bool>)
    requires |reqs| == |results| == |answered|
    ensures |p| == |reqs|
    ensures forall i :: 0 <= i < |p| ==> p[i] == Pending(reqs[i], results[i], answered[i])
  {
    seq(|reqs|, i requires 0 <= i < |reqs| => Pending(reqs[i], results[i], answered[i]))
  }

  /** One entry after the first loop: a pending entry's request gets the
      cursor to follow. */
  function MarkOne(r: Req, data: Value, answered: bool): Req {
    if Pending(r, data, answered) then r.WithParam("cursor", Prop(data, "next_cursor_str")) else r
  }

  /** The batch after the first loop. */
  function Mark(reqs: seq<Req>, results: seq<Value>, answered: seq<bool>): (m: seq<Req>)
    requires |reqs| == |results| == |answered|
    ensures |m| == |reqs|
    ensures forall i :: 0 <= i < |m| ==> m[i] == MarkOne(reqs[i], results[i], answered[i])
  {
    seq(|reqs|, i requires 0 <= i < |reqs| => MarkOne(reqs[i], results[i], answered[i]))
  }

  /** Whether entry i is sent again in a round. */
  predicate Fetched(refetch: Refetch, pending: bool) {
    refetch.WholeBatch? || pending
  }

  /** The second loop on one answered entry: an answer that is not an
      object freezes the entry to null; otherwise the entry's own properties
      give the content key and the page is merged as in `singleRequest`. */
  function MergeEntry(data: Value, page: Value): (r: Result<Value>)
    ensures !page.Obj? ==> r == Ok(Null)
    ensures page.Obj? && !data.Obj? ==> r == Err(PropertiesOfNonObject)
    ensures page.Obj? && data.Obj? ==> r.Ok? == MergePage(data.fields, ContentKey(data.fields), page).Ok?
    ensures r.Ok? && page.Obj? ==> r.value.Obj?
    ensures r.Ok? && page.Obj? && Lookup(data.fields, ContentKey(data.fields)).Arr? ==>
      Lookup(r.value.fields, ContentKey(data.fields)) ==
        Arr(Lookup(data.fields, ContentKey(data.fields)).items + PageContent(page, ContentKey(data.fields)))
  {
    if !page.Obj? then Ok(Null)
    else if !data.Obj? then Err(PropertiesOfNonObject)
    else match MergePage(data.fields, ContentKey(data.fields), page)
      case Ok(fs) => Ok(Obj(fs))
      case Err(e) => Err(e)
  }

  /** The state a round leaves: the results and which entries got a non-null
      answer (`isset($lastResults[$i])`). */
  datatype Batch = Batch(results: seq<Value>, answered: seq<bool>)

  /** The second loop over the entries before index k, stopping at the first
      error. */
  function RoundUpTo(send: Transport, reqs: seq<Req>, pend: seq<bool>, refetch: Refetch, results: seq<Value>, k: nat): (r: Result<Batch>)
    requires |pend| == |reqs| == |results| && k <= |reqs|
    ensures r.Ok? ==> |r.value.results| == |reqs| && |r.value.answered| == |reqs|
    decreases k
  {
    if k == 0 then Ok(Batch(results, seq(|reqs|, _ => false)))
    else match RoundUpTo(send, reqs, pend, refetch, results, k - 1)
      case Err(e) => Err(e)
      case Ok(b) =>
        var i := k - 1;
        if !Fetched(refetch, pend[i]) then Ok(b)
        else
          var page := send(reqs[i]);
          match MergeEntry(b.results[i], page)
          case Err(e) => Err(e)
          case Ok(v) => Ok(Batch(b.results[i := v], b.answered[i := page != Null]))
  }

  /** The second loop at index i, from the batch it has reached. */
  lemma RoundUpToNext(send: Transport, reqs: seq<Req>, pend: seq<bool>, refetch: Refetch, results: seq<Value>, i: nat, b: Batch)
    requires |pend| == |reqs| == |results| && i < |reqs|
    requires RoundUpTo(send, reqs, pend, refetch, results, i) == Ok(b)
    ensures |b.results| == |reqs| && |b.answered| == |reqs|
    ensures !Fetched(refetch, pend[i]) ==> RoundUpTo(send, reqs, pend, refetch, results, i + 1) == Ok(b)
    ensures Fetched(refetch, pend[i]) && MergeEntry(b.results[i], send(reqs[i])).Err? ==>
      RoundUpTo(send, reqs, pend, refetch, results, i + 1) == Err(MergeEntry(b.results[i], send(reqs[i])).error)
    ensures Fetched(refetch, pend[i]) && MergeEntry(b.results[i], send(reqs[i])).Ok? ==>
      RoundUpTo(send, reqs, pend, refetch, results, i + 1) ==
        Ok(Batch(b.results[i := MergeEntry(b.results[i], send(reqs[i])).value], b.answered[i := send(reqs[i]) != Null]))
  {
  }

  /** The final state of the rounds: the outcome, the requests and the
      answered flags. */
  datatype Final = Final(out: Outcome<seq<Value>>, reqs: seq<Req>, answered: seq<bool>)

  /** The rounds of `multiRequest`, at most `fuel` of them. The result keeps
      the batch's indices, and a completed run leaves no entry pending. */
  function Rounds(send: Transport, reqs: seq<Req>, results: seq<Value>, answered: seq<bool>, fuel: nat, refetch: Refetch): (f: Final)
    requires |reqs| == |results| == |answered|
    ensures |f.reqs| == |reqs| && |f.answered| == |reqs|
    ensures f.out.Done? ==> |f.out.value| == |reqs|
    ensures f.out.Done? ==> forall i :: 0 <= i < |reqs| ==> !Pending(f.reqs[i], f.out.value[i], f.answered[i])
    ensures (forall i :: 0 <= i < |reqs| ==> !Pending(reqs[i], results[i], answered[i])) ==>
      f == Final(Done(results), reqs, answered)
    decreases fuel
  {
    var pend := PendingFlags(reqs, results, answered);
    var marked := Mark(reqs, results, answered);
    if true !in pend then
      assert marked == reqs;
      Final(Done(results), marked, answered)
    else if fuel == 0 then Final(OutOfFuel, marked, answered)
    else match RoundUpTo(send, marked, pend, refetch, results, |reqs|)
      case Err(e) => Final(Failed(e), marked, answered)
      case Ok(b) => Rounds(send, marked, b.results, b.answered, fuel - 1, refetch)
  }

  /** The base connection's batch transport: every request sent, index by index. */
  function SendAll(send: Transport, reqs: seq<Req>): (rs: seq<Value>)
    ensures |rs| == |reqs| && forall i :: 0 <= i < |reqs| ==> rs[i] == send(reqs[i])
  {
    seq(|reqs|, i requires 0 <= i < |reqs| => send(reqs[i]))
  }

  /** `multiRequest`: the batch is sent once, then followed in rounds. */
  function Multi(send: Transport, reqs: seq<Req>, fuel: nat, refetch: Refetch): Final {
    Rounds(send, reqs, SendAll(send, reqs), seq(|reqs|, _ => false), fuel, refetch)
  }

  /** A round that went through hands its state to the next round. */
  lemma RoundsStep(send: Transport, reqs: seq<Req>, results: seq<Value>, answered: seq<bool>, refetch: Refetch,
                   rest: nat, pend: seq<bool>, marked: seq<Req>, n: nat, b: Batch)
    requires |reqs| == |results| == |answered| == n
    requires pend == PendingFlags(reqs, results, answered) && true in pend
    requires marked == Mark(reqs, results, answered)
    requires RoundUpTo(send, marked, pend, refetch, results, n) == Ok(b)
    ensures Rounds(send, reqs, results, answered, rest + 1, refetch) == Rounds(send, marked, b.results, b.answered, rest, refetch)
  {
  }

  lemma RoundsNext(send: Transport, reqs: seq<Req>, results: seq<Value>, answered: seq<bool>, refetch: Refetch,
                   fuel: nat, rest: nat, pend: seq<bool>, marked: seq<Req>, n: nat, b: Batch)
    requires |reqs| == |results| == |answered| == n && fuel == rest + 1
    requires pend == PendingFlags(reqs, results, answered) && true in pend
    requires marked == Mark(reqs, results, answered)
    requires RoundUpTo(send, marked, pend, refetch, results, n) == Ok(b)
    ensures Rounds(send, reqs, results, answered, fuel, refetch) == Rounds(send, marked, b.results, b.answered, rest, refetch)
  {
    RoundsFuel(send, reqs, results, answered, refetch, fuel, rest + 1);
    RoundsStep(send, reqs, results, answered, refetch, rest, pend, marked, n, b);
  }

  /** The rounds depend on the fuel's value only. */
  lemma RoundsFuel(send: Transport, reqs: seq<Req>, results: seq<Value>, answered: seq<bool>, refetch: Refetch, a: nat, b: nat)
    requires |reqs| == |results| == |answered| && a == b
    ensures Rounds(send, reqs, results, answered, a, refetch) == Rounds(send, reqs, results, answered, b, refetch)
  {
  }

  /** An error ends the second loop: later entries are not merged. */
  lemma {:induction false} RoundErrSticks(send: Transport, reqs: seq<Req>, pend: seq<bool>, refetch: Refetch, results: seq<Value>, k: nat, m: nat)
    requires |pend| == |reqs| == |results| && k <= m <= |reqs|
    requires RoundUpTo(send, reqs, pend, refetch, results, k).Err?
    ensures RoundUpTo(send, reqs, pend, refetch, results, m) == RoundUpTo(send, reqs, pend, refetch, results, k)
    decreases m - k
  {
    if k < m {
      RoundErrSticks(send, reqs, pend, refetch, results, k + 1, m);
    }
  }

  /** `multiRequest` on request objects, which the rounds change in place. */
  method MultiRequest(send: Transport, requests: seq<Request>, fuel: nat, refetch: Refetch) returns (out: Outcome<seq<Value>>)
    requires Distinct(requests)
    modifies requests
    ensures out == Multi(send, old(Snapshots(requests)), fuel, refetch).out
    ensures Snapshots(requests) == Multi(send, old(Snapshots(requests)), fuel, refetch).reqs
  {
    var n := |requests|;
    ghost var start := Snapshots(requests);
    var results := SendAll(send, Snapshots(requests));
    var answered := seq(n, _ => false);
    var left := fuel;
    ghost var goal := Rounds(send, Snapshots(requests), results, answered, left, refetch);
    while true
      invariant |results| == n && |answered| == n
      invariant Rounds(send, Snapshots(requests), results, answered, left, refetch) == goal
      decreases left
    {
      ghost var before := Snapshots(requests);
      var pend := MarkPending(requests, results, answered);
      if true !in pend {
        return Done(results);
      }
      if left == 0 {
        return OutOfFuel;
      }
      var b := FetchRound(send, requests, pend, refetch, results);
      if b.Err? {
        return Failed(b.error);
      }
      var rest := left - 1;
      RoundsNext(send, before, results, answered, refetch, left, rest, pend, Snapshots(requests), n, b.value);
      results, answered := b.value.results, b.value.answered;
      left := rest;
    }
  }

  /** The first loop of a round: flags the pending entries and writes their
      cursors into their request objects. */
  method MarkPending(requests: seq<Request>, results: seq<Value>, answered: seq<bool>) returns (pend: seq<bool>)
    requires Distinct(requests) && |results| == |requests| && |answered| == |requests|
    modifies requests
    ensures pend == PendingFlags(old(Snapshots(requests)), results, answered)
    ensures Snapshots(requests) == Mark(old(Snapshots(requests)), results, answered)
  {
    ghost var before := Snapshots(requests);
    pend := [];
    for i := 0 to |requests|
      invariant |pend| == i
      invariant forall j :: 0 <= j < i ==> pend[j] == Pending(before[j], results[j], answered[j])
      invariant forall j :: 0 <= j < i ==> requests[j].Snapshot() == MarkOne(before[j], results[j], answered[j])
      invariant forall j :: i <= j < |requests| ==> requests[j].Snapshot() == before[j]
    {
      var p := MarkRequest(requests, i, results[i], answered[i]);
      pend := pend + [p];
    }
  }

  /** The first loop's body on one entry. */
  method MarkRequest(requests: seq<Request>, i: nat, data: Value, answered: bool) returns (p: bool)
    requires Distinct(requests) && i < |requests|
    modifies requests[i]
    ensures p == Pending(old(requests[i].Snapshot()), data, answered)
    ensures requests[i].Snapshot() == MarkOne(old(requests[i].Snapshot()), data, answered)
    ensures forall j :: 0 <= j < |requests| && j != i ==> requests[j].Snapshot() == old(requests[j].Snapshot())
  {
    var request := requests[i];
    var hasCursor := answered || !IsSet(request.params, "cursor");
    p := hasCursor && data.Obj? && Truthy(Prop(data, "next_cursor_str"));
    if p {
      request.params := Put(request.params, "cursor", Prop(data, "next_cursor_str"));
    }
  }

  /** The batch request of a round and the second loop over its answers. */
  method FetchRound(send: Transport, requests: seq<Request>, pend: seq<bool>, refetch: Refetch, results: seq<Value>)
    returns (r: Result<Batch>)
    requires |pend| == |requests| && |results| == |requests|
    ensures r == RoundUpTo(send, Snapshots(requests), pend, refetch, results, |requests|)
  {
    ghost var reqs := Snapshots(requests);
    var n := |requests|;
    var rs := results;
    var answered := seq(n, _ => false);
    for i := 0 to n
      invariant RoundUpTo(send, reqs, pend, refetch, results, i) == Ok(Batch(rs, answered))
    {
      RoundUpToNext(send, reqs, pend, refetch, results, i, Batch(rs, answered));
      if refetch.WholeBatch? || pend[i] {
        var page := send(requests[i].Snapshot());
        assert page == send(reqs[i]);
        var entry := MergeEntry(rs[i], page);
        if entry.Err? {
          RoundErrSticks(send, reqs, pend, refetch, results, i + 1, n);
          return Err(entry.error);
        }
        rs := rs[i := entry.value];
        answered := answered[i := page != Null];
      }
    }
    return Ok(Batch(rs, answered));
  }
}
