/** The Ajax request pool of the browser scripts (gen/ui/appy.js and
    gen/plone25/skin/appy.js): the global array `xhrObjects` of
    XMLHttpRequest wrappers, the choice of a free slot, the parameters and
    URL a slot sends, and the callback that shows the answer and frees the
    slot. The two scripts differ only in the folder of the Ajax page and of
    the waiting image. The asynchrony of the browser is left to the caller:
    the callback is called with the ready state, status and text the
    request has reached. */
module AjaxPool {
  import opened Wrappers
  import Text

  /** The two copies of the script: the Appy UI and the Plone 2.5 skin. */
  datatype Skin = Ui | Plone25

  /** The folder of the Ajax page and of the images. */
  function Folder(skin: Skin): string {
    if skin.Ui? then "ui" else "skyn"
  }

  /** What the hook shows while a request is under way. */
  function WaitingImage(skin: Skin): string {
    "<div align=\"center\"><img src=\"" + Folder(skin) + "/waiting.gif\"/></div>"
  }

  /** How a request was sent: not at all (a method other than GET and POST),
      without a body (GET), or with the parameters as its body (POST). */
  datatype Sending = NotSent | WithoutBody | WithBody(body: string)

  /** What a slot's XMLHttpRequest was opened and sent with. */
  datatype Request = Request(mode: string, url: string, sending: Sending)

  /** One `XhrObject`: whether it is free, whether the browser gave it an
      XMLHttpRequest, the id of the element its answer replaces, the
      callback to call then, and the last request it sent. */
  datatype Slot = Slot(freed: bool, hasXhr: bool, hook: string, onGet: Option<string>, request: Option<Request>)

  /** The arguments of `askAjaxChunk`, `beforeSend` being replaced by what it
      returned (empty when there is none or it returned nothing). */
  datatype AjaxCall = AjaxCall(hook: string, mode: string, url: string, page: string, macro: string,
                               params: seq<(string, string)>, extra: string, onGet: Option<string>)

  /** The `&name=value` pairs of the parameters, in order. */
  function Pairs(params: seq<(string, string)>): string
    decreases |params|
  {
    if params == [] then ""
    else Pairs(params[..|params| - 1]) + "&" + params[|params| - 1].0 + "=" + params[|params| - 1].1
  }

  /** The parameter string: page and macro, the parameters, then what
      `beforeSend` returned. */
  function ParamsString(page: string, macro: string, params: seq<(string, string)>, extra: string): string {
    "page=" + page + "&macro=" + macro + Pairs(params) + extra
  }

  /** The URL a request is opened with: a GET carries the parameters. */
  function FullUrl(skin: Skin, url: string, mode: string, paramsFull: string): string {
    url + "/" + Folder(skin) + "/ajax" + (if mode == "GET" then "?" + paramsFull else "")
  }

  function SendingOf(mode: string, paramsFull: string): Sending {
    if mode == "POST" then WithBody(paramsFull) else if mode == "GET" then WithoutBody else NotSent
  }

  /** The index of the first free slot, if any. */
  function FirstFree(slots: seq<Slot>): (r: Option<nat>)
    ensures r.Some? ==> r.value < |slots| && slots[r.value].freed
    ensures r.Some? ==> forall j :: 0 <= j < r.value ==> !slots[j].freed
    ensures r.None? ==> forall j :: 0 <= j < |slots| ==> !slots[j].freed
  {
    if slots == [] then None
    else if slots[0].freed then Some(0)
    else
      match FirstFree(slots[1..])
      case None => None
      case Some(i) => Some(i + 1)
  }

  /** The slot a new request takes: the first free one, else a new one at
      the end. */
  function Chosen(slots: seq<Slot>): (pos: nat)
    ensures pos <= |slots|
  {
    if FirstFree(slots).Some? then FirstFree(slots).value else |slots|
  }

  /** The slot a request is given to, before it is sent. */
  function Taken(slots: seq<Slot>, xhrCreated: bool): Slot
  {
    var pos := Chosen(slots);
    if pos < |slots| then slots[pos] else Slot(true, xhrCreated, "", None, None)
  }

  /** The chosen slot once `askAjaxChunk` has set it up: the hook and the
      callback, and, when it has an XMLHttpRequest, busy with the request. */
  function Prepared(skin: Skin, slot: Slot, call: AjaxCall): Slot {
    var paramsFull := ParamsString(call.page, call.macro, call.params, call.extra);
    var withHook := slot.(hook := call.hook, onGet := call.onGet);
    if slot.hasXhr then
      withHook.(freed := false,
                request := Some(Request(call.mode, FullUrl(skin, call.url, call.mode, paramsFull),
                                        SendingOf(call.mode, paramsFull))))
    else withHook
  }

  /** The pool after `askAjaxChunk`. */
  function Acquired(skin: Skin, slots: seq<Slot>, call: AjaxCall, xhrCreated: bool): seq<Slot> {
    var pos := Chosen(slots);
    var slot := Prepared(skin, Taken(slots, xhrCreated), call);
    if pos < |slots| then slots[pos := slot] else slots + [slot]
  }

  /** The state the callback acts on: the pool, the page's hook elements by
      id with their content, and the slots whose `onGet` was called. */
  datatype PoolState = PoolState(slots: seq<Slot>, hooks: map<string, string>, called: seq<nat>)

  /** The state after `getAjaxChunk(pos)` with the request at a ready state
      and status: the waiting image while it is opened, the answer and the
      freed slot once it succeeded. */
  function Answered(skin: Skin, st: PoolState, pos: nat, readyState: int, status: int, response: string): PoolState {
    if pos >= |st.slots| || st.slots[pos].freed then st
    else
      var slot := st.slots[pos];
      if readyState == 1 && slot.hook in st.hooks then
        st.(hooks := st.hooks[slot.hook := WaitingImage(skin)])
      else if readyState == 4 && slot.hook in st.hooks && status == 200 then
        PoolState(st.slots[pos := slot.(freed := true)], st.hooks[slot.hook := response],
                  st.called + (if slot.onGet.Some? then [pos] else []))
      else st
  }

  /** Every busy slot has an XMLHttpRequest and a request under way. */
  predicate Consistent(slots: seq<Slot>) {
    forall i :: 0 <= i < |slots| && !slots[i].freed ==> slots[i].hasXhr && slots[i].request.Some?
  }

  /** The global pool of one page. */
  class XhrPool {
    const skin: Skin
    var slots: seq<Slot>
    var hooks: map<string, string>
    var called: seq<nat>

    function State(): PoolState
      reads this
    {
      PoolState(slots, hooks, called)
    }

    /** An empty pool on a page with the given hook elements. */
    constructor (skin: Skin, hooks: map<string, string>)
      ensures this.skin == skin && slots == [] && this.hooks == hooks && called == []
      ensures Consistent(slots)
    {
      this.skin := skin;
      slots := [];
      this.hooks := hooks;
      called := [];
    }

    /** `askAjaxChunk`: takes the first free slot or appends a new one, sets
        its hook and callback, and, when it has an XMLHttpRequest, marks it
        busy and sends the request. `xhrCreated` says whether the browser
        gives a new slot an XMLHttpRequest. */
    method AskAjaxChunk(call: AjaxCall, xhrCreated: bool) returns (pos: nat)
      requires Consistent(slots)
      modifies this
      ensures pos == Chosen(old(slots))
      ensures slots == Acquired(skin, old(slots), call, xhrCreated)
      ensures hooks == old(hooks) && called == old(called)
      ensures Consistent(slots)
    {
      var found := -1;
      var i := 0;
      while i < |slots|
        invariant 0 <= i <= |slots|
        invariant forall j :: 0 <= j < i ==> !slots[j].freed
        invariant found == -1
      {
        if slots[i].freed {
          found := i;
          break;
        }
        i := i + 1;
      }
      assert found == -1 ==> FirstFree(slots).None?;
      assert found != -1 ==> FirstFree(slots) == Some(found);
      if found == -1 {
        pos := |slots|;
        slots := slots + [Slot(true, xhrCreated, "", None, None)];
      } else {
        pos := found;
      }
      assert pos == Chosen(old(slots));
      assert slots[pos] == Taken(old(slots), xhrCreated);
      var slot := slots[pos].(hook := call.hook, onGet := call.onGet);
      if slot.hasXhr {
        var paramsFull := "page=" + call.page + "&macro=" + call.macro;
        var k := 0;
        while k < |call.params|
          invariant 0 <= k <= |call.params|
          invariant paramsFull == "page=" + call.page + "&macro=" + call.macro + Pairs(call.params[..k])
        {
          assert call.params[..k + 1][..k] == call.params[..k];
          paramsFull := paramsFull + "&" + call.params[k].0 + "=" + call.params[k].1;
          k := k + 1;
        }
        assert call.params[..k] == call.params;
        paramsFull := paramsFull + call.extra;
        assert paramsFull == ParamsString(call.page, call.macro, call.params, call.extra);
        var urlFull := call.url + "/" + Folder(skin) + "/ajax";
        if call.mode == "GET" {
          urlFull := urlFull + "?" + paramsFull;
        }
        assert urlFull == FullUrl(skin, call.url, call.mode, paramsFull);
        var sending := if call.mode == "POST" then WithBody(paramsFull)
                       else if call.mode == "GET" then WithoutBody else NotSent;
        slot := slot.(freed := false, request := Some(Request(call.mode, urlFull, sending)));
      }
      assert slot == Prepared(skin, Taken(old(slots), xhrCreated), call);
      slots := slots[pos := slot];
      AcquiredConsistent(skin, old(slots), call, xhrCreated);
    }

    /** `getAjaxChunk(pos)`, called when the request of slot `pos` reaches
        a ready state; `onGet` and the scripts of the answer are not run. */
    method GetAjaxChunk(pos: nat, readyState: int, status: int, response: string)
      requires Consistent(slots)
      modifies this
      ensures State() == Answered(skin, old(State()), pos, readyState, status, response)
      ensures Consistent(slots)
    {
      if pos < |slots| && !slots[pos].freed {
        var hook := slots[pos].hook;
        if readyState == 1 && hook in hooks {
          hooks := hooks[hook := WaitingImage(skin)];
        }
        if readyState == 4 && hook in hooks && status == 200 {
          hooks := hooks[hook := response];
          if slots[pos].onGet.Some? {
            called := called + [pos];
          }
          slots := slots[pos := slots[pos].(freed := true)];
        }
      }
    }
  }

  /** The pool grows only when every slot is busy, and by one slot; the
      other slots are left alone, and the chosen one gets the hook and the
      callback of the call. */
  lemma AcquiredShape(skin: Skin, slots: seq<Slot>, call: AjaxCall, xhrCreated: bool)
    ensures var r := Acquired(skin, slots, call, xhrCreated);
            var pos := Chosen(slots);
            (|r| == |slots| + 1 <==> forall j :: 0 <= j < |slots| ==> !slots[j].freed) &&
            (|r| == |slots| || |r| == |slots| + 1) &&
            pos < |r| && r[pos].hook == call.hook && r[pos].onGet == call.onGet &&
            forall j :: 0 <= j < |slots| && j != pos ==> r[j] == slots[j]
  {
  }

  /** The chosen slot is busy exactly when it has an XMLHttpRequest, and
      then its request carries the parameters: in the URL for a GET, as the
      body for a POST. */
  lemma AcquiredRequest(skin: Skin, slots: seq<Slot>, call: AjaxCall, xhrCreated: bool)
    ensures var r := Acquired(skin, slots, call, xhrCreated);
            var pos := Chosen(slots);
            var p := ParamsString(call.page, call.macro, call.params, call.extra);
            var base := call.url + "/" + Folder(skin) + "/ajax";
            pos < |r| && (r[pos].freed <==> !r[pos].hasXhr) &&
            (r[pos].hasXhr ==>
              r[pos].request.Some? && r[pos].request.value.mode == call.mode &&
              (call.mode == "GET" ==> r[pos].request.value == Request("GET", base + "?" + p, WithoutBody)) &&
              (call.mode == "POST" ==> r[pos].request.value == Request("POST", base, WithBody(p))))
  {
  }

  /** Taking a slot keeps the pool consistent. */
  lemma AcquiredConsistent(skin: Skin, slots: seq<Slot>, call: AjaxCall, xhrCreated: bool)
    requires Consistent(slots)
    ensures Consistent(Acquired(skin, slots, call, xhrCreated))
  {
    var r := Acquired(skin, slots, call, xhrCreated);
    var pos := Chosen(slots);
    forall i | 0 <= i < |r| && !r[i].freed
      ensures r[i].hasXhr && r[i].request.Some?
    {
      if i != pos {
        assert r[i] == slots[i];
      }
    }
  }

  /** A slot is freed only by a successful answer (ready state 4, status
      200, hook on the page), and nothing else in the pool changes. */
  lemma FreedOnlyOnSuccess(skin: Skin, st: PoolState, pos: nat, readyState: int, status: int, response: string, i: nat)
    requires i < |st.slots|
    ensures var st' := Answered(skin, st, pos, readyState, status, response);
            |st'.slots| == |st.slots| && st'.slots[i].(freed := st.slots[i].freed) == st.slots[i] &&
            (st'.slots[i].freed != st.slots[i].freed ==>
              i == pos && !st.slots[i].freed && readyState == 4 && status == 200 && st.slots[i].hook in st.hooks)
  {
  }

  /** A request that succeeds gives the pool back its free slots: after
      asking and a successful answer in an existing hook, the slots are free
      exactly where they were (a grown pool has one more free slot at the
      end), and the hook holds the answer. */
  lemma AskThenAnswer(skin: Skin, st: PoolState, call: AjaxCall, xhrCreated: bool, response: string)
    requires call.hook in st.hooks && Taken(st.slots, xhrCreated).hasXhr
    ensures var pos := Chosen(st.slots);
            var asked := st.(slots := Acquired(skin, st.slots, call, xhrCreated));
            var st' := Answered(skin, asked, pos, 4, 200, response);
            |st'.slots| >= |st.slots| &&
            (forall j :: 0 <= j < |st.slots| ==> st'.slots[j].freed == st.slots[j].freed) &&
            (forall j :: |st.slots| <= j < |st'.slots| ==> st'.slots[j].freed) &&
            st'.hooks == st.hooks[call.hook := response]
  {
    var pos := Chosen(st.slots);
    var asked := st.(slots := Acquired(skin, st.slots, call, xhrCreated));
    AcquiredShape(skin, st.slots, call, xhrCreated);
    assert !asked.slots[pos].freed;
  }

  /** When no parameter, page or macro holds `&` or `=` and nothing is
      added by `beforeSend`, the parameter string splits back into the page,
      the macro and the parameters. */
  lemma ParamsRoundTrip(page: string, macro: string, params: seq<(string, string)>)
    requires '&' !in page && '=' !in page && '&' !in macro && '=' !in macro
    requires forall i :: 0 <= i < |params| ==> '&' !in params[i].0 && '=' !in params[i].0 && '&' !in params[i].1
    ensures Text.Split(ParamsString(page, macro, params, ""), '&') ==
            ["page=" + page, "macro=" + macro] + Fields(params)
  {
    var fields := ["page=" + page, "macro=" + macro] + Fields(params);
    JoinedFields(page, macro, params);
    forall i | 0 <= i < |fields|
      ensures '&' !in fields[i]
    {
      if i >= 2 {
        FieldsAt(params, i - 2);
      }
    }
    Text.JoinSplit(fields, '&');
  }

  /** The `name=value` fields of the parameters. */
  function Fields(params: seq<(string, string)>): (r: seq<string>)
    ensures |r| == |params|
  {
    seq(|params|, i requires 0 <= i < |params| => params[i].0 + "=" + params[i].1)
  }

  lemma FieldsAt(params: seq<(string, string)>, i: nat)
    requires i < |params| && '&' !in params[i].0 && '&' !in params[i].1
    ensures '&' !in Fields(params)[i]
  {
    assert Fields(params)[i] == params[i].0 + "=" + params[i].1;
  }

  /** The parameter string is its fields joined by `&`. */
  lemma JoinedFields(page: string, macro: string, params: seq<(string, string)>)
    ensures ParamsString(page, macro, params, "") == Text.Join(["page=" + page, "macro=" + macro] + Fields(params), "&")
  {
    var head := ["page=" + page, "macro=" + macro];
    assert Text.Join(head, "&") == "page=" + page + "&" + ("macro=" + macro);
    JoinedPairs(head, params);
  }

  /** Joining more fields after some adds their `&name=value` pairs. */
  lemma {:induction false} JoinedPairs(head: seq<string>, params: seq<(string, string)>)
    requires |head| > 0
    ensures Text.Join(head + Fields(params), "&") == Text.Join(head, "&") + Pairs(params)
    decreases |params|
  {
    if params == [] {
      assert head + Fields(params) == head;
    } else {
      var front := params[..|params| - 1];
      var p := params[|params| - 1];
      var fs := head + Fields(params);
      var field := p.0 + "=" + p.1;
      assert fs[..|fs| - 1] == head + Fields(front);
      assert fs[|fs| - 1] == field;
      JoinedPairs(head, front);
      var a := Text.Join(head, "&");
      var b := Pairs(front);
      assert Text.Join(fs, "&") == (a + b) + "&" + field;
      assert Pairs(params) == b + "&" + p.0 + "=" + p.1;
      assert (a + b) + "&" + field == a + (b + "&" + p.0 + "=" + p.1);
    }
  }
}
