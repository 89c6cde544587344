/**
  The branch combinator: `condition >> then` and `branch(pattern)`.

  A branch exposes its condition so that a choice combinator can test it
  speculatively, and a `then` parser to run once the condition has matched.
  Its own matcher and parser are those of the sequence `Condition + Then`,
  or, for a bare branch, those of the pattern itself.
 */
module Branches {
  import opened Wrappers
  import opened Rules
  import opened ParseStates
  import opened Parsing

  /** Why a branch could not be built; one per construction-time check. */
  datatype BuildError =
      /** `c >> t` with a condition `c` that is not a pattern. */
    | ConditionNotPattern
      /** `branch(r)` with a rule `r` that is neither a branch nor a pattern. */
    | NonPatternNeedsCondition
      /** A condition whose matcher sets an id. */
    | ConditionSetsId

  /** `condition >> then`. The static checks of the operator are its
      precondition; the result tests `c`, then commits to `t`. */
  function MkBranch(c: Rule, t: Rule): (b: Rule)
    requires ValidCondition(c)
    ensures b.Br? && Condition(b) == c && b.body == Some(t)
    ensures IsPattern(b) == IsPattern(t)
    ensures SetsId(b) == SetsId(t)
    ensures WellFormed(b) <==> WellFormed(c) && WellFormed(t)
  {
    Br(c, Some(t))
  }

  /** `branch(pattern)`: a pattern made usable as a branch, with no body. */
  function MkBareBranch(p: Rule): (b: Rule)
    requires ValidCondition(p)
    ensures b.Br? && Condition(b) == p && b.body.None?
    ensures IsPattern(b) && !SetsId(b)
    ensures WellFormed(b) <==> WellFormed(p)
  {
    Br(p, None)
  }

  /** `condition()`: the condition a branch was built with. For a branch
      that passed the construction-time checks it is a pattern that sets no
      id, so a choice combinator may test it speculatively. */
  function Condition(b: Rule): (c: Rule)
    requires b.Br?
    ensures WellFormed(b) ==> ValidCondition(c) && WellFormed(c)
  {
    b.cond
  }

  /** `branch(r)` for any argument: a branch is returned unchanged (the
      friend overload); any other rule must pass the pattern checks and
      becomes a bare branch. */
  function AsBranch(r: Rule): (b: Rule)
    requires r.Br? || ValidCondition(r)
    ensures b.Br?
    ensures r.Br? ==> b == r
    ensures !r.Br? ==> Condition(b) == r && b.body.None?
  {
    if r.Br? then r else MkBareBranch(r)
  }

  /** The operator `>>` with its static checks made explicit: it builds
      exactly when the condition is a pattern that sets no id, and names the
      first check that fails otherwise. */
  function TryBranch(c: Rule, t: Rule): (res: Result<Rule, BuildError>)
    ensures res.Success? <==> ValidCondition(c)
    ensures res.Success? ==> res.value.Br? && Condition(res.value) == c && res.value.body == Some(t)
    ensures !IsPattern(c) ==> res == Failure(ConditionNotPattern)
    ensures IsPattern(c) && SetsId(c) ==> res == Failure(ConditionSetsId)
  {
    if !IsPattern(c) then Failure(ConditionNotPattern)
    else if SetsId(c) then Failure(ConditionSetsId)
    else Success(MkBranch(c, t))
  }

  /** `branch(r)` with its static checks made explicit. */
  function TryAsBranch(r: Rule): (res: Result<Rule, BuildError>)
    ensures res.Success? <==> r.Br? || ValidCondition(r)
    ensures r.Br? ==> res == Success(r)
    ensures !r.Br? && !IsPattern(r) ==> res == Failure(NonPatternNeedsCondition)
    ensures !r.Br? && IsPattern(r) && SetsId(r) ==> res == Failure(ConditionSetsId)
    ensures res.Success? ==> res.value.Br?
    ensures res.Success? && !r.Br? ==> Condition(res.value) == r && res.value.body.None?
  {
    if r.Br? then Success(r)
    else if !IsPattern(r) then Failure(NonPatternNeedsCondition)
    else if SetsId(r) then Failure(ConditionSetsId)
    else Success(MkBareBranch(r))
  }

  /** `then_parser`, position only: what runs once the condition has matched
      up to `pos`. For a conditioned branch that is the body alone; for a
      bare branch it is the continuation itself, which moves nothing. */
  function RunThen(b: Rule, input: string, pos: nat): (res: Option<nat>)
    requires b.Br? && pos <= |input|
    ensures b.body.None? ==> res == Some(pos)
    ensures res.Some? ==> pos <= res.value <= |input|
  {
    match b.body
    case Some(t) => Run(t, input, pos)
    case None => Some(pos)
  }

  /** `then_parser` with the ambient state: the body alone, or for a bare
      branch the identity continuation, which leaves position and state as
      they are and produces nothing. */
  function ExecThen(b: Rule, input: string, pos: nat, st: State): (o: Outcome)
    requires b.Br? && pos <= |input|
    ensures b.body.None? ==> o == Outcome(Matched(pos), st, [])
    ensures o.status.Matched? ==> pos <= o.status.end <= |input|
  {
    match b.body
    case Some(t) => Exec(t, input, pos, st)
    case None => Outcome(Matched(pos), st, [])
  }

  /** Testing the condition and then running `then_parser` from where it
      ended is the branch's own parser: a failed condition fails the branch,
      and a matched one commits to the body, whose failure fails the branch
      with no alternative tried. */
  lemma ConditionThenRun(b: Rule, input: string, pos: nat)
    requires b.Br? && pos <= |input|
    ensures Run(Condition(b), input, pos) == None ==> Run(b, input, pos) == None
    ensures Run(Condition(b), input, pos).Some? ==>
      Run(b, input, pos) == RunThen(b, input, Run(Condition(b), input, pos).value)
  {
  }

  /** The same split with the ambient state. Because a condition is a pure
      pattern, a failed condition leaves the state untouched and runs no
      part of the body, and a matched one hands the unchanged state to the
      body. */
  lemma ConditionThenExec(b: Rule, input: string, pos: nat, st: State)
    requires b.Br? && WellFormed(b) && pos <= |input|
    ensures Run(Condition(b), input, pos) == None ==>
      Exec(b, input, pos, st) == Outcome(NoMatch, st, [])
    ensures Run(Condition(b), input, pos).Some? ==>
      Exec(b, input, pos, st) == ExecThen(b, input, Run(Condition(b), input, pos).value, st)
  {
    PatternsArePure(Condition(b), input, pos, st);
  }

  /** A bare branch matches and parses exactly as its pattern does. */
  lemma BareBranchIsPattern(p: Rule, input: string, pos: nat, st: State)
    requires ValidCondition(p) && pos <= |input|
    ensures Run(MkBareBranch(p), input, pos) == Run(p, input, pos)
    ensures Exec(MkBareBranch(p), input, pos, st) == Exec(p, input, pos, st)
  {
  }

  /** A conditioned branch matches and parses exactly as the sequence of
      its parts. */
  lemma BranchIsSequence(c: Rule, t: Rule, input: string, pos: nat, st: State)
    requires ValidCondition(c) && pos <= |input|
    ensures Run(MkBranch(c, t), input, pos) == Run(Seq(c, t), input, pos)
    ensures Exec(MkBranch(c, t), input, pos, st) == Exec(Seq(c, t), input, pos, st)
  {
  }

  /** `branch` is idempotent: applied to its own result it changes nothing. */
  lemma AsBranchIdempotent(r: Rule)
    requires r.Br? || ValidCondition(r)
    ensures AsBranch(AsBranch(r)) == AsBranch(r)
  {
  }

  /** A condition matching the empty prefix, then a one-character body: on
      that one character the branch succeeds one character past the
      zero-width condition; on any other input it fails. */
  lemma EmptyConditionThenLiteral(x: char, input: string)
    ensures Run(MkBranch(Lit(""), Lit([x])), input, 0) ==
      (if |input| >= 1 && input[0] == x then Some(1) else None)
  {
    assert Run(Lit(""), input, 0) == Some(0) by {
      assert input[0..0] == "";
    }
    if |input| >= 1 && input[0] == x {
      assert input[0..1] == [x];
      assert Run(Lit([x]), input, 0) == Some(1);
      assert Run(Seq(Lit(""), Lit([x])), input, 0) == Some(1);
    } else {
      assert |input| >= 1 ==> input[0..1][0] != x;
      assert Run(Lit([x]), input, 0) == None;
      assert Run(Seq(Lit(""), Lit([x])), input, 0) == None;
    }
  }
}
