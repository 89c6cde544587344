/**
  The ambient parse state, the references the state-injection rules hand
  out, and the two callbacks that consume them.
 */
module ParseStates {
  import opened Wrappers
  import opened Rules

  /** The ambient state of one parse: a plain `int` (as for `parse_state`),
      a record `state { int i; }` (as for `parse_state_member<&state::i>`),
      or no state at all, when the handler running the rule carries none
      (as in the checks that run a rule on its own with a bare `success`
      callback). */
  datatype State = IntState(n: int) | RecordState(i: int) | NoState

  /** The type of the ambient state, which is fixed for the whole parse. */
  datatype Shape = IntShape | RecordShape | NoShape

  function ShapeOf(st: State): Shape
  {
    match st
    case IntState(_) => IntShape
    case RecordState(_) => RecordShape
    case NoState => NoShape
  }

  /** A reference at `loc` designates an int of a state of shape `sh`: the
      whole state when it is an int, field `i` when it is the record. */
  predicate Fits(sh: Shape, loc: Loc)
  {
    (sh == IntShape && loc == Whole) || (sh == RecordShape && loc == FieldI)
  }

  /** A reference at `loc` can be formed in a state of shape `sh`: a
      reference to the whole state always can (its type is the state's own
      type, `int&` or `state&`), one to field `i` only on the record. Without
      a state there is nothing to refer to. */
  predicate Designates(sh: Shape, loc: Loc)
  {
    sh != NoShape && (loc == Whole || sh == RecordShape)
  }

  /** What an injected reference designates: the whole state, or field `i`. */
  datatype Loc = Whole | FieldI

  /** A value produced by a rule and passed to its production's callback. */
  datatype Value = Ref(loc: Loc) | Int(n: int)

  /** The two state-injection rules. */
  predicate IsInjection(r: Rule)
  {
    r == ParseState || r == ParseStateMember
  }

  /** The location an injection rule refers to. */
  function InjectedLoc(r: Rule): (loc: Loc)
    requires IsInjection(r)
    ensures loc == Whole <==> r == ParseState
  {
    if r == ParseState then Whole else FieldI
  }

  /** The int an `int&` at `loc` reads, or None when `loc` does not designate
      an int of this state (a type mismatch the compiler would reject). */
  function Load(st: State, loc: Loc): (v: Option<int>)
    ensures v.Some? <==> Fits(ShapeOf(st), loc)
  {
    match (st, loc)
    case (IntState(n), Whole) => Some(n)
    case (RecordState(i), FieldI) => Some(i)
    case _ => None
  }

  /** Writes `v` through a reference at `loc`. */
  function Store(st: State, loc: Loc, v: int): (st': State)
    requires Load(st, loc).Some?
    ensures Load(st', loc) == Some(v)
    ensures ShapeOf(st') == ShapeOf(st)
  {
    if st.IntState? then IntState(v) else RecordState(v)
  }

  /** Invokes callback `cb` on the values `args` of a production's rule, in
      state `st`. The result is the production's value (None for a void
      callback) and the state afterwards, or None when the callback cannot
      take these arguments. `Increment` is `[](int& i) { ++i; }`;
      `ConstructInt` is `lexy::construct<int>`, which copies the int it is
      given (reading through a reference at the moment it is invoked). */
  function Apply(cb: Callback, args: seq<Value>, st: State): (res: Option<(Option<int>, State)>)
    ensures res.Some? ==> |args| == 1
    ensures res.Some? && cb == Increment ==>
      && args[0].Ref?
      && res.value.0.None?
      && Load(st, args[0].loc).Some?
      && Load(res.value.1, args[0].loc) == Some(Load(st, args[0].loc).value + 1)
    ensures res.Some? && cb == ConstructInt ==>
      && res.value.1 == st
      && res.value.0.Some?
      && res.value.0 == (if args[0].Ref? then Load(st, args[0].loc) else Some(args[0].n))
    ensures (|args| == 1 && args[0].Ref? && Load(st, args[0].loc).Some?) ==> res.Some?
    ensures (|args| == 1 && cb == ConstructInt && args[0].Int?) ==> res.Some?
  {
    if |args| != 1 then None
    else
      match (cb, args[0])
      case (Increment, Ref(loc)) =>
        (match Load(st, loc)
         case None => None
         case Some(n) => Some((None, Store(st, loc, n + 1))))
      case (Increment, Int(_)) => None
      case (ConstructInt, Ref(loc)) =>
        (match Load(st, loc)
         case None => None
         case Some(n) => Some((Some(n), st)))
      case (ConstructInt, Int(n)) => Some((Some(n), st))
  }
}
