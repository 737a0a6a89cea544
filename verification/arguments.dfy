/**
 * How `_remap` and `index` turn the parameters of an un-routed CLI call into
 * the name of the command to run and the parameters to hand to it.
 */
module Arguments {
  import opened Wrappers
  import opened Php

  /** `$params[0]`: absent on an empty list. */
  function First(params: seq<string>): Option<string>
  {
    if params == [] then None else Some(params[0])
  }

  /** The first parameter, if any, and the rest: the result of `array_shift` and what it leaves behind. */
  datatype Shifted = Shifted(head: Option<string>, rest: seq<string>)

  /** `array_shift($params)`: removes and yields the first element; on an empty list yields null and leaves it empty. */
  function Shift(params: seq<string>): (r: Shifted)
    ensures r.head.None? <==> params == []
    ensures Unshift(r) == params
  {
    if params == [] then Shifted(None, []) else Shifted(Some(params[0]), params[1..])
  }

  /** Puts a shifted head back in front of the rest. */
  function Unshift(s: Shifted): seq<string>
  {
    match s.head
    case None => s.rest
    case Some(h) => [h] + s.rest
  }

  /** Shifting undoes putting back, whenever an absent head comes with nothing behind it. */
  lemma ShiftUnshift(s: Shifted)
    requires s.head.None? ==> s.rest == []
    ensures Shift(Unshift(s)) == s
  {
  }

  /**
   * `_remap`'s first step: the first parameter is dropped when PHP considers
   * it empty, and the list is otherwise kept whole and in order.
   */
  function DropLeadingEmpty(params: seq<string>): (r: seq<string>)
    ensures |params| - 1 <= |r| <= |params|
    ensures r == params[|params| - |r|..]
    ensures |r| < |params| <==> params != [] && Empty(Some(params[0]))
  {
    if Empty(First(params)) then Shift(params).rest else params
  }

  /** The command `index` looks up, and the parameters it passes on. */
  datatype Request = Request(command: string, params: seq<string>)

  /**
   * `index`'s handling of its list: the first element names the command and
   * the others, in order, become its parameters; with no element at all the
   * command is `help`.
   */
  function RequestOf(params: seq<string>): (r: Request)
    ensures params == [] ==> r == Request("help", [])
    ensures params != [] ==> [r.command] + r.params == params
  {
    var s := Shift(params);
    var command := if s.head.None? then "help" else s.head.value;
    Request(command, s.rest)
  }

  /** The request an un-routed call through `_remap` leads to. */
  function Route(params: seq<string>): (r: Request)
    ensures params != [] && Empty(Some(params[0])) ==> r == RequestOf(params[1..])
    ensures params != [] && !Empty(Some(params[0])) ==> r == Request(params[0], params[1..])
    ensures params == [] || (|params| == 1 && Empty(Some(params[0]))) ==> r == Request("help", [])
  {
    RequestOf(DropLeadingEmpty(params))
  }

  /** Only a missing name becomes `help`: a name that is present but empty is looked up as it is. */
  lemma EmptyNameIsNotHelp(rest: seq<string>)
    ensures RequestOf([""] + rest) == Request("", rest)
  {
  }

  /** The list `["", "serve", "--port", "8080"]` names `serve` with the two remaining elements. */
  lemma RouteServe()
    ensures Route(["", "serve", "--port", "8080"]) == Request("serve", ["--port", "8080"])
  {
  }

  /** Only the first empty element is dropped: a second one becomes the command name. */
  lemma RouteDropsOnlyOnce(rest: seq<string>)
    ensures Route(["", ""] + rest) == Request("", rest)
    ensures Route(["", "0"] + rest) == Request("0", rest)
  {
  }
}
