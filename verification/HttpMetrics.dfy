/** pkg/obs/redmetrics.go: the status recorder around a response, and the request counters the SLO divides. */
module HttpMetrics {
  import opened Options
  import opened HttpStatus

  /** What a handler does to its ResponseWriter. */
  datatype Op = Header(code: int) | Body

  /** Informational codes do not settle a response; switching protocols does. */
  predicate Settling(code: int) {
    !(100 <= code <= 199) || code == 101
  }

  /** The status on the wire, once settled: the first body byte implies 200. */
  function Wire(ops: seq<Op>): Option<int> {
    if ops == [] then None
    else
      var before := Wire(ops[..|ops| - 1]);
      if before.Some? then before
      else
        match ops[|ops| - 1]
        case Body => Some(OK)
        case Header(code) => if Settling(code) then Some(code) else None
  }

  function FirstHeader(ops: seq<Op>): Option<int> {
    if ops == [] then None
    else
      var before := FirstHeader(ops[..|ops| - 1]);
      if before.Some? then before
      else match ops[|ops| - 1] case Body => None case Header(code) => Some(code)
  }

  function OrOK(status: Option<int>): int {
    match status case None => OK case Some(code) => code
  }

  /** net/http's writer: returning without a status sends 200. */
  function Sent(ops: seq<Op>): int { OrOK(Wire(ops)) }

  function Recorded(ops: seq<Op>): int { OrOK(FirstHeader(ops)) }

  class ResponseWriter {
    var status: Option<int>

    constructor ()
      ensures status == None
    {
      status := None;
    }

    method WriteHeader(code: int)
      modifies this
      ensures status == if old(status).Some? then old(status) else if Settling(code) then Some(code) else None
    {
      if status == None && Settling(code) {
        status := Some(code);
      }
    }

    method Write()
      modifies this
      ensures status == if old(status).Some? then old(status) else Some(OK)
    {
      if status == None {
        status := Some(OK);
      }
    }
  }

  class StatusRecorder {
    const inner: ResponseWriter
    var code: int
    var wroteHeader: bool
    ghost var ops: seq<Op>

    ghost predicate Valid()
      reads this, inner
    {
      code == Recorded(ops) && (wroteHeader <==> FirstHeader(ops).Some?) && inner.status == Wire(ops)
    }

    constructor (inner: ResponseWriter)
      requires inner.status == None
      ensures Valid() && this.inner == inner && ops == []
    {
      this.inner := inner;
      code := OK;
      wroteHeader := false;
      ops := [];
    }

    method WriteHeader(c: int)
      requires Valid()
      modifies this, inner
      ensures Valid() && ops == old(ops) + [Header(c)]
    {
      if !wroteHeader {
        code := c;
        wroteHeader := true;
      }
      inner.WriteHeader(c);
      assert (ops + [Header(c)])[..|ops|] == ops;
      ops := ops + [Header(c)];
    }

    /** Promoted from the embedded ResponseWriter: the recorder does not see it. */
    method Write()
      requires Valid()
      modifies this`ops, inner
      ensures Valid() && ops == old(ops) + [Body]
    {
      inner.Write();
      assert (ops + [Body])[..|ops|] == ops;
      ops := ops + [Body];
    }
  }

  /** The handler settles its status before its body, with a code that can settle it; or never says but 200. */
  predicate Straightforward(ops: seq<Op>) {
    ops != [] ==>
      match ops[0]
      case Header(code) => Settling(code)
      case Body => OrOK(FirstHeader(ops)) == OK
  }

  /** The recorded code is the one that was sent exactly for such handlers. */
  lemma RecordedIsSentIff(ops: seq<Op>)
    ensures Recorded(ops) == Sent(ops) <==> Straightforward(ops)
  {
    if ops != [] {
      FirstOp(ops);
    }
  }

  /** What goes on the wire: nothing said, or a body first, is 200; the first header is sent unless it is informational,
      and switching protocols is not. */
  lemma SentFirst(c: int)
    ensures Sent([]) == 200 && Sent([Body]) == 200
    ensures Sent([Header(c)]) == if 100 <= c <= 199 && c != 101 then 200 else c
    ensures Recorded([]) == 200 && Recorded([Body]) == 200 && Recorded([Header(c)]) == c
  {
    assert [Body][..0] == [] && [Header(c)][..0] == [];
  }

  /** It is not always: an informational code is recorded although the response is still to come, and a code set
      after the body has begun is recorded although it is never sent. */
  lemma RecordedButNotSent()
    ensures var hints := [Header(103), Header(OK)]; Recorded(hints) == 103 && Sent(hints) == OK
    ensures var late := [Body, Header(500)]; Recorded(late) == 500 && Sent(late) == OK
  {
    assert [Header(103), Header(OK)][..1] == [Header(103)] && [Header(103)][..0] == [];
    assert [Body, Header(500)][..1] == [Body] && [Body][..0] == [];
    assert FirstHeader([Header(103)]) == Some(103) && Wire([Header(103)]) == None;
    assert FirstHeader([Body]) == None && Wire([Body]) == Some(OK);
  }

  lemma {:induction false} FirstOp(ops: seq<Op>)
    requires ops != []
    ensures match ops[0]
            case Header(code) => FirstHeader(ops) == Some(code) && (Settling(code) ==> Wire(ops) == Some(code))
            case Body => Wire(ops) == Some(OK)
    ensures Wire(ops).Some? ==> Settling(Wire(ops).value)
  {
    if |ops| > 1 {
      FirstOp(ops[..|ops| - 1]);
    } else {
      assert ops[..0] == [];
    }
  }

  // ----- counters -----

  datatype Labels = Labels(handler: string, verb: string, code: int)

  type Counters = map<Labels, nat>

  function Incremented(m: Counters, l: Labels): Counters {
    m[l := (if l in m then m[l] else 0) + 1]
  }

  /** The counters after the requests with these labels, in the order in which they complete. */
  function Tally(completed: seq<Labels>): Counters {
    if completed == [] then map[] else Incremented(Tally(completed[..|completed| - 1]), completed[|completed| - 1])
  }

  ghost function Sum(m: Counters, over: set<Labels>): nat
    requires over <= m.Keys
  {
    if over == {} then 0
    else
      var l :| l in over;
      m[l] + Sum(m, over - {l})
  }

  lemma {:induction false} SumSplits(m: Counters, over: set<Labels>, l: Labels)
    requires over <= m.Keys && l in over
    ensures Sum(m, over) == m[l] + Sum(m, over - {l})
    decreases over
  {
    var k :| k in over && Sum(m, over) == m[k] + Sum(m, over - {k});
    if k != l {
      SumSplits(m, over - {k}, l);
      SumSplits(m, over - {l}, k);
      assert over - {k} - {l} == over - {l} - {k};
    }
  }

  lemma {:induction false} SumFrame(m: Counters, m': Counters, over: set<Labels>)
    requires over <= m.Keys && over <= m'.Keys && forall l | l in over :: m[l] == m'[l]
    ensures Sum(m, over) == Sum(m', over)
    decreases over
  {
    if over != {} {
      var k :| k in over && Sum(m, over) == m[k] + Sum(m, over - {k});
      SumFrame(m, m', over - {k});
      SumSplits(m', over, k);
    }
  }

  function From(m: Counters, code: int): set<Labels> {
    set l | l in m && l.code >= code
  }

  function CountFrom(completed: seq<Labels>, code: int): nat {
    if completed == [] then 0
    else CountFrom(completed[..|completed| - 1], code) + if completed[|completed| - 1].code >= code then 1 else 0
  }

  /** Summed over all labels with at least a given code, the counters are the completed requests with such a code. */
  lemma {:induction false} CountersConserve(completed: seq<Labels>, code: int)
    ensures Sum(Tally(completed), From(Tally(completed), code)) == CountFrom(completed, code)
  {
    if completed != [] {
      var before, l := completed[..|completed| - 1], completed[|completed| - 1];
      CountersConserve(before, code);
      IncrementSum(Tally(before), l, code);
    }
  }

  lemma IncrementSum(m: Counters, l: Labels, code: int)
    ensures Sum(Incremented(m, l), From(Incremented(m, l), code)) == Sum(m, From(m, code)) + if l.code >= code then 1 else 0
  {
    var m' := Incremented(m, l);
    var rest := From(m, code) - {l};
    SumFrame(m, m', rest);
    assert From(m', code) - {l} == rest;
    if l.code >= code {
      SumSplits(m', From(m', code), l);
      if l in m {
        SumSplits(m, From(m, code), l);
      } else {
        assert From(m, code) == rest;
      }
    } else {
      assert From(m', code) == rest == From(m, code);
    }
  }
}
