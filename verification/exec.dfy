/**
  Parsing with the ambient state: a rule runs from a cursor position in a
  given state and yields a status, the state afterwards and the values it
  produced for its production's callback. The state is threaded through
  every rule and every nested production, so a mutation made by one child
  production's callback is the state the next rule starts from.
 */
module Parsing {
  import opened Wrappers
  import opened Rules
  import opened ParseStates

  /** How a rule ended: matched up to `end`, failed on the input, or reached
      a callback that cannot take the values it is given (a program the
      compiler would reject). */
  datatype Status = Matched(end: nat) | NoMatch | Rejected

  /** The result of running a rule. `state` is the ambient state afterwards;
      mutations done before a failure are kept, since the state is shared by
      reference and nothing rolls it back. */
  datatype Outcome = Outcome(status: Status, state: State, values: seq<Value>)

  /** The status of a position-only result. */
  function StatusOf(res: Option<nat>): Status
  {
    match res
    case None => NoMatch
    case Some(k) => Matched(k)
  }

  /** An injection rule in state `st`: it consumes nothing and hands on one
      reference into the state. Without a state it hands on nothing.
      `parse_state` can always refer to the whole state, whatever its type;
      the field selector on a plain int is a program the compiler would
      reject. */
  function Inject(inj: Rule, pos: nat, st: State): (o: Outcome)
    requires IsInjection(inj)
    ensures o.state == st
    ensures o.status.Matched? <==> st.NoState? || Designates(ShapeOf(st), InjectedLoc(inj))
    ensures o.status.Matched? ==> o.status.end == pos
    ensures st.NoState? ==> o.values == []
    ensures Designates(ShapeOf(st), InjectedLoc(inj)) ==> o.values == [Ref(InjectedLoc(inj))]
    ensures inj == ParseState ==> o.status.Matched?
    ensures !o.status.Matched? ==>
      o.status == Rejected && o.values == [] && inj == ParseStateMember && st.IntState?
  {
    if st.NoState? then Outcome(Matched(pos), st, [])
    else if Designates(ShapeOf(st), InjectedLoc(inj)) then Outcome(Matched(pos), st, [Ref(InjectedLoc(inj))])
    else Outcome(Rejected, st, [])
  }

  /** Runs `r` at `pos` of `input` in state `st`. The cursor stays within the
      input, a failed rule produces no values, and the shape of the state
      (a plain int, a record, or none) never changes. */
  function Exec(r: Rule, input: string, pos: nat, st: State): (o: Outcome)
    requires pos <= |input|
    ensures o.status.Matched? ==> pos <= o.status.end <= |input|
    ensures !o.status.Matched? ==> o.values == []
    ensures ShapeOf(o.state) == ShapeOf(st)
    decreases Size(r)
  {
    match r
    case Lit(_) => Outcome(StatusOf(Run(r, input, pos)), st, [])
    case Tagged(p) => Exec(p, input, pos, st)
    case Seq(a, b) =>
      var oa := Exec(a, input, pos, st);
      if !oa.status.Matched? then oa
      else
        var ob := Exec(b, input, oa.status.end, oa.state);
        if !ob.status.Matched? then ob
        else Outcome(ob.status, ob.state, oa.values + ob.values)
    case Br(c, Some(t)) => Exec(Seq(c, t), input, pos, st)
    case Br(p, None) => Exec(p, input, pos, st)
    case ParseState => Inject(r, pos, st)
    case ParseStateMember => Inject(r, pos, st)
    case Prod(p) =>
      var inner := Exec(p.rule, input, pos, st);
      if !inner.status.Matched? then inner
      else
        match Apply(p.value, inner.values, inner.state)
        case None => Outcome(Rejected, inner.state, [])
        case Some((v, st')) =>
          Outcome(inner.status, st', if v.Some? then [Int(v.value)] else [])
  }

  /** The result of a top-level parse: whether it matched, the production's
      value, and the final ambient state. */
  datatype ParseResult = ParseResult(status: Status, value: Option<int>, state: State)

  /** Parses production `prod` from the start of `input` with initial state
      `init`. With an rvalue state the caller keeps only `value`; with an
      lvalue state the caller's object ends up holding `state`. */
  function Parse(prod: Production, input: string, init: State): (res: ParseResult)
    ensures res.value.Some? ==> res.status.Matched?
    ensures res.status.Matched? ==> res.status.end <= |input|
  {
    var o := Exec(Prod(prod), input, 0, init);
    var value := if o.status.Matched? && |o.values| == 1 && o.values[0].Int? then Some(o.values[0].n) else None;
    ParseResult(o.status, value, o.state)
  }

  /** A caller-owned state object, passed to a parse as an lvalue. */
  class StateCell {
    var state: State

    constructor (init: State)
      ensures state == init
    {
      state := init;
    }
  }

  /** Runs `r` against the caller's own state object: there is no copy, every
      child production's callback writes `cell` in place as soon as that
      production ends, and later rules read what it wrote. The object ends
      up exactly in the state the functional threading of `Exec` computes,
      with the same status and values. */
  method ExecInto(r: Rule, input: string, pos: nat, cell: StateCell) returns (status: Status, values: seq<Value>)
    requires pos <= |input|
    modifies cell
    ensures var o := Exec(r, input, pos, old(cell.state));
      cell.state == o.state && status == o.status && values == o.values
    decreases Size(r)
  {
    match r
    case Lit(_) =>
      status, values := StatusOf(Run(r, input, pos)), [];
    case Tagged(p) =>
      status, values := ExecInto(p, input, pos, cell);
    case Seq(a, b) =>
      var sa, va := ExecInto(a, input, pos, cell);
      if !sa.Matched? {
        status, values := sa, va;
      } else {
        var sb, vb := ExecInto(b, input, sa.end, cell);
        if !sb.Matched? {
          status, values := sb, vb;
        } else {
          status, values := sb, va + vb;
        }
      }
    case Br(c, Some(t)) =>
      status, values := ExecInto(Seq(c, t), input, pos, cell);
    case Br(p, None) =>
      status, values := ExecInto(p, input, pos, cell);
    case ParseState =>
      var o := Inject(r, pos, cell.state);
      status, values := o.status, o.values;
    case ParseStateMember =>
      var o := Inject(r, pos, cell.state);
      status, values := o.status, o.values;
    case Prod(p) =>
      var s, v := ExecInto(p.rule, input, pos, cell);
      if !s.Matched? {
        status, values := s, v;
      } else {
        match Apply(p.value, v, cell.state)
        case None =>
          status, values := Rejected, [];
        case Some((result, st')) =>
          cell.state := st';
          status := s;
          values := if result.Some? then [Int(result.value)] else [];
      }
  }

  /** Parses with an lvalue state: the whole parse reads and writes the
      caller's own object, which afterwards holds the final state of the
      functional parse. */
  method ParseInto(prod: Production, input: string, cell: StateCell) returns (status: Status, value: Option<int>)
    modifies cell
    ensures var res := Parse(prod, input, old(cell.state));
      cell.state == res.state && status == res.status && value == res.value
  {
    var values;
    status, values := ExecInto(Prod(prod), input, 0, cell);
    value := if status.Matched? && |values| == 1 && values[0].Int? then Some(values[0].n) else None;
  }

  /** The state never changes what a rule matches: unless the program is
      rejected (a callback or an injection that does not fit), the status is
      exactly the position-only result. */
  lemma {:induction false} ExecRefinesRun(r: Rule, input: string, pos: nat, st: State)
    requires pos <= |input|
    ensures Exec(r, input, pos, st).status != Rejected ==>
      Exec(r, input, pos, st).status == StatusOf(Run(r, input, pos))
    decreases Size(r)
  {
    match r
    case Lit(_) =>
    case Tagged(p) => ExecRefinesRun(p, input, pos, st);
    case Seq(a, b) =>
      ExecRefinesRun(a, input, pos, st);
      var oa := Exec(a, input, pos, st);
      if oa.status.Matched? {
        ExecRefinesRun(b, input, oa.status.end, oa.state);
      }
    case Br(c, Some(t)) => ExecRefinesRun(Seq(c, t), input, pos, st);
    case Br(p, None) => ExecRefinesRun(p, input, pos, st);
    case ParseState =>
    case ParseStateMember =>
    case Prod(p) => ExecRefinesRun(p.rule, input, pos, st);
  }

  /** A production with the `construct<int>` callback whose rule hands on
      one reference into the state produces the int stored there, and
      leaves the state as its rule left it. */
  lemma ConstructFromRef(rule: Rule, input: string, pos: nat, st: State)
    requires pos <= |input|
    requires var o := Exec(rule, input, pos, st);
      o.status.Matched? && |o.values| == 1 && o.values[0].Ref? && Load(o.state, o.values[0].loc).Some?
    ensures var o := Exec(rule, input, pos, st);
      Exec(Prod(Production(rule, ConstructInt)), input, pos, st)
        == Outcome(o.status, o.state, [Int(Load(o.state, o.values[0].loc).value)])
  {
  }

  /** A well-formed pattern has no effect beyond moving the cursor: it leaves
      the state alone, produces no values and is never rejected. */
  lemma {:induction false} PatternsArePure(r: Rule, input: string, pos: nat, st: State)
    requires WellFormed(r) && IsPattern(r)
    requires pos <= |input|
    ensures Exec(r, input, pos, st) == Outcome(StatusOf(Run(r, input, pos)), st, [])
    decreases Size(r)
  {
    match r
    case Lit(_) =>
    case Tagged(p) => PatternsArePure(p, input, pos, st);
    case Seq(a, b) =>
      PatternsArePure(a, input, pos, st);
      if k :| Run(a, input, pos) == Some(k) {
        PatternsArePure(b, input, k, st);
      }
    case Br(c, Some(t)) =>
      PatternsArePure(c, input, pos, st);
      if k :| Run(c, input, pos) == Some(k) {
        PatternsArePure(t, input, k, st);
      }
    case Br(p, None) => PatternsArePure(p, input, pos, st);
  }

  /** Concatenation of value lists is associative. */
  lemma ConcatAssociative(x: seq<Value>, y: seq<Value>, z: seq<Value>)
    ensures (x + y) + z == x + (y + z)
  {
  }

  /** Associativity when `a` fails: both groupings fail as `a` does. */
  lemma SeqAssociativeFirstFails(a: Rule, b: Rule, c: Rule, input: string, pos: nat, st: State)
    requires pos <= |input|
    requires !Exec(a, input, pos, st).status.Matched?
    ensures Exec(Seq(Seq(a, b), c), input, pos, st) == Exec(a, input, pos, st)
    ensures Exec(Seq(a, Seq(b, c)), input, pos, st) == Exec(a, input, pos, st)
  {
    assert Exec(Seq(a, b), input, pos, st) == Exec(a, input, pos, st);
  }

  /** Associativity when `a` matches and `b` then fails: both groupings
      fail as `b` does. */
  lemma SeqAssociativeSecondFails(a: Rule, b: Rule, c: Rule, input: string, pos: nat, st: State)
    requires pos <= |input|
    requires Exec(a, input, pos, st).status.Matched?
    requires var oa := Exec(a, input, pos, st);
      !Exec(b, input, oa.status.end, oa.state).status.Matched?
    ensures var oa := Exec(a, input, pos, st);
      && Exec(Seq(Seq(a, b), c), input, pos, st) == Exec(b, input, oa.status.end, oa.state)
      && Exec(Seq(a, Seq(b, c)), input, pos, st) == Exec(b, input, oa.status.end, oa.state)
  {
    var oa := Exec(a, input, pos, st);
    assert Exec(Seq(a, b), input, pos, st) == Exec(b, input, oa.status.end, oa.state);
    assert Exec(Seq(b, c), input, oa.status.end, oa.state) == Exec(b, input, oa.status.end, oa.state);
  }

  /** Associativity when `a` and `b` match and `c` then fails: both
      groupings fail as `c` does. */
  lemma SeqAssociativeThirdFails(a: Rule, b: Rule, c: Rule, input: string, pos: nat, st: State)
    requires pos <= |input|
    requires Exec(a, input, pos, st).status.Matched?
    requires var oa := Exec(a, input, pos, st);
      Exec(b, input, oa.status.end, oa.state).status.Matched?
    requires var oa := Exec(a, input, pos, st);
      var ob := Exec(b, input, oa.status.end, oa.state);
      !Exec(c, input, ob.status.end, ob.state).status.Matched?
    ensures var oa := Exec(a, input, pos, st);
      var ob := Exec(b, input, oa.status.end, oa.state);
      && Exec(Seq(Seq(a, b), c), input, pos, st) == Exec(c, input, ob.status.end, ob.state)
      && Exec(Seq(a, Seq(b, c)), input, pos, st) == Exec(c, input, ob.status.end, ob.state)
  {
    var oa := Exec(a, input, pos, st);
    var ob := Exec(b, input, oa.status.end, oa.state);
    assert Exec(Seq(a, b), input, pos, st).status == ob.status;
    assert Exec(Seq(a, b), input, pos, st).state == ob.state;
    assert Exec(Seq(b, c), input, oa.status.end, oa.state) == Exec(c, input, ob.status.end, ob.state);
  }

  /** Associativity when all three match: both groupings end where `c`
      ended, in the state `c` left, with the values of `a`, `b` and `c` in
      that order. */
  lemma SeqAssociativeAllMatch(a: Rule, b: Rule, c: Rule, input: string, pos: nat, st: State)
    requires pos <= |input|
    requires Exec(a, input, pos, st).status.Matched?
    requires var oa := Exec(a, input, pos, st);
      Exec(b, input, oa.status.end, oa.state).status.Matched?
    requires var oa := Exec(a, input, pos, st);
      var ob := Exec(b, input, oa.status.end, oa.state);
      Exec(c, input, ob.status.end, ob.state).status.Matched?
    ensures Exec(Seq(Seq(a, b), c), input, pos, st) == Exec(Seq(a, Seq(b, c)), input, pos, st)
  {
    var oa := Exec(a, input, pos, st);
    var ob := Exec(b, input, oa.status.end, oa.state);
    var oc := Exec(c, input, ob.status.end, ob.state);
    ConcatAssociative(oa.values, ob.values, oc.values);
  }

  /** Committing sequence is associative, so `a + b + c` may be grouped
      either way: the framework's flattening of a sequence chain into one
      sequence does not change its meaning. */
  lemma SeqAssociative(a: Rule, b: Rule, c: Rule, input: string, pos: nat, st: State)
    requires pos <= |input|
    ensures Exec(Seq(Seq(a, b), c), input, pos, st) == Exec(Seq(a, Seq(b, c)), input, pos, st)
  {
    var oa := Exec(a, input, pos, st);
    if !oa.status.Matched? {
      SeqAssociativeFirstFails(a, b, c, input, pos, st);
    } else {
      var ob := Exec(b, input, oa.status.end, oa.state);
      if !ob.status.Matched? {
        SeqAssociativeSecondFails(a, b, c, input, pos, st);
      } else if Exec(c, input, ob.status.end, ob.state).status.Matched? {
        SeqAssociativeAllMatch(a, b, c, input, pos, st);
      } else {
        SeqAssociativeThirdFails(a, b, c, input, pos, st);
      }
    }
  }

  /** The static kind of a value handed to a callback. */
  datatype Kind = RefKind(loc: Loc) | IntKind

  function KindOf(v: Value): Kind
  {
    match v
    case Ref(loc) => RefKind(loc)
    case Int(_) => IntKind
  }

  function Kinds(vs: seq<Value>): (ks: seq<Kind>)
    ensures |ks| == |vs|
  {
    if vs == [] then [] else [KindOf(vs[0])] + Kinds(vs[1..])
  }

  lemma {:induction false} KindsConcat(a: seq<Value>, b: seq<Value>)
    ensures Kinds(a + b) == Kinds(a) + Kinds(b)
  {
    if a == [] {
      assert a + b == b;
    } else {
      assert (a + b)[1..] == a[1..] + b;
      KindsConcat(a[1..], b);
    }
  }

  /** The kinds of the values `r` hands to its production when it matches in
      a state of shape `sh`: what the compiler knows of a rule's values. */
  function Sig(r: Rule, sh: Shape): seq<Kind>
    decreases Size(r)
  {
    match r
    case Lit(_) => []
    case Tagged(p) => Sig(p, sh)
    case Seq(a, b) => Sig(a, sh) + Sig(b, sh)
    case Br(c, Some(t)) => Sig(Seq(c, t), sh)
    case Br(p, None) => Sig(p, sh)
    case ParseState => if sh == NoShape then [] else [RefKind(Whole)]
    case ParseStateMember => if sh == NoShape then [] else [RefKind(FieldI)]
    case Prod(p) => if p.value == ConstructInt then [IntKind] else []
  }

  /** Callback `cb` can be called with values of kinds `ks` in a state of
      shape `sh`: exactly one argument, an `int&` it can bind for `++i`, an
      int or an `int&` for `construct<int>`. */
  predicate Accepts(cb: Callback, ks: seq<Kind>, sh: Shape)
  {
    && |ks| == 1
    && (ks[0].RefKind? ==> Fits(sh, ks[0].loc))
    && (cb == Increment ==> ks[0].RefKind?)
  }

  /** The program compiles against a state of shape `sh`: every field
      selector names a field of the state, and every callback accepts its
      rule's values (so an `int&` callback rejects a `state&`). */
  predicate Typed(r: Rule, sh: Shape)
    decreases Size(r)
  {
    match r
    case Lit(_) => true
    case Tagged(p) => Typed(p, sh)
    case Seq(a, b) => Typed(a, sh) && Typed(b, sh)
    case Br(c, Some(t)) => Typed(Seq(c, t), sh)
    case Br(p, None) => Typed(p, sh)
    case ParseState => true
    case ParseStateMember => sh == NoShape || Designates(sh, FieldI)
    case Prod(p) => Typed(p.rule, sh) && Accepts(p.value, Sig(p.rule, sh), sh)
  }

  /** A program that compiles is never rejected, on any input: whenever it
      matches, the values it hands on have exactly the kinds the compiler
      assigned them. */
  lemma {:induction false} TypedNeverRejected(r: Rule, input: string, pos: nat, st: State)
    requires Typed(r, ShapeOf(st)) && pos <= |input|
    ensures Exec(r, input, pos, st).status != Rejected
    ensures Exec(r, input, pos, st).status.Matched? ==>
      Kinds(Exec(r, input, pos, st).values) == Sig(r, ShapeOf(st))
    decreases Size(r)
  {
    match r
    case Lit(_) =>
    case Tagged(p) => TypedNeverRejected(p, input, pos, st);
    case Seq(a, b) =>
      TypedNeverRejected(a, input, pos, st);
      var oa := Exec(a, input, pos, st);
      if oa.status.Matched? {
        TypedNeverRejected(b, input, oa.status.end, oa.state);
        var ob := Exec(b, input, oa.status.end, oa.state);
        KindsConcat(oa.values, ob.values);
      }
    case Br(c, Some(t)) => TypedNeverRejected(Seq(c, t), input, pos, st);
    case Br(p, None) => TypedNeverRejected(p, input, pos, st);
    case ParseState =>
    case ParseStateMember =>
    case Prod(p) =>
      TypedNeverRejected(p.rule, input, pos, st);
      var inner := Exec(p.rule, input, pos, st);
      if inner.status.Matched? {
        assert KindOf(inner.values[0]) == Sig(p.rule, ShapeOf(st))[0];
      }
  }

  /** For a program that compiles, the parser's status is exactly the
      matcher's result on every input and state. */
  lemma TypedExecIsRun(r: Rule, input: string, pos: nat, st: State)
    requires Typed(r, ShapeOf(st)) && pos <= |input|
    ensures Exec(r, input, pos, st).status == StatusOf(Run(r, input, pos))
  {
    TypedNeverRejected(r, input, pos, st);
    ExecRefinesRun(r, input, pos, st);
  }
}
