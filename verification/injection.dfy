/**
  The state-injection rules `dsl::parse_state` and
  `dsl::parse_state_member<&state::i>`, and how the one ambient state is
  shared by every nested production of a parse.
 */
module StateInjection {
  import opened Wrappers
  import opened Rules
  import opened ParseStates
  import opened Parsing

  /** Neither injection rule is a pattern: each has no matcher, so neither
      can serve as a branch condition. */
  lemma InjectionIsNotPattern(inj: Rule)
    requires IsInjection(inj)
    ensures !IsPattern(inj) && !ValidCondition(inj)
  {
  }

  /** An injection rule succeeds on every input without moving the cursor
      or touching the state; its only effect is to hand its production one
      reference into the state, or nothing when the handler carries no
      state. `parse_state` does so whatever the state's type, a record
      included; `parse_state_member` on a plain int is rejected whatever the
      input. */
  lemma InjectionIsZeroWidth(inj: Rule, input: string, pos: nat, st: State)
    requires IsInjection(inj) && pos <= |input|
    ensures Run(inj, input, pos) == Some(pos)
    ensures !st.NoState? && (inj == ParseState || st.RecordState?) ==>
      Exec(inj, input, pos, st) == Outcome(Matched(pos), st, [Ref(InjectedLoc(inj))])
    ensures st.NoState? ==> Exec(inj, input, pos, st) == Outcome(Matched(pos), st, [])
    ensures inj == ParseStateMember && st.IntState? ==>
      Exec(inj, input, pos, st) == Outcome(Rejected, st, [])
  {
  }

  /** A child production whose rule is the injection and whose callback
      increments the injected int. */
  function Child(inj: Rule): Production
    requires IsInjection(inj)
  {
    Production(inj, Increment)
  }

  /** `p<child> + ... + p<child> + inj`, with `n` child productions. */
  function Chain(n: nat, inj: Rule): Rule
    requires IsInjection(inj)
  {
    if n == 0 then inj else Seq(Prod(Child(inj)), Chain(n - 1, inj))
  }

  /** Each child production increments the same state its predecessor left,
      so after `n` of them the int reached through the injected reference
      has grown by exactly `n`, no input is consumed, and the final
      injection hands on one reference to it. */
  lemma {:induction false} ChainCounts(n: nat, inj: Rule, input: string, pos: nat, st: State)
    requires IsInjection(inj) && pos <= |input|
    requires Load(st, InjectedLoc(inj)).Some?
    ensures var o := Exec(Chain(n, inj), input, pos, st);
      && o.status == Matched(pos)
      && Load(o.state, InjectedLoc(inj)) == Some(Load(st, InjectedLoc(inj)).value + n)
      && o.values == [Ref(InjectedLoc(inj))]
  {
    if n > 0 {
      var loc := InjectedLoc(inj);
      var first := Exec(Prod(Child(inj)), input, pos, st);
      assert first.status == Matched(pos) && first.values == [];
      assert Load(first.state, loc) == Some(Load(st, loc).value + 1);
      ChainCounts(n - 1, inj, input, pos, first.state);
    }
  }

  /** `parse_state` on the record hands its production a `state&`. The
      rule itself matches and compiles; it is the child's `int&` callback
      that cannot take that reference, so the production is rejected. */
  lemma WholeRecordReachesCallback(input: string, pos: nat, i: int)
    requires pos <= |input|
    ensures Exec(ParseState, input, pos, RecordState(i)) == Outcome(Matched(pos), RecordState(i), [Ref(Whole)])
    ensures Exec(Prod(Child(ParseState)), input, pos, RecordState(i)) == Outcome(Rejected, RecordState(i), [])
    ensures Typed(ParseState, RecordShape) && !Typed(Prod(Child(ParseState)), RecordShape)
  {
  }

  /** The production of the state tests, `p<child> + p<child> + inj`, with
      the value callback `lexy::construct<int>`. */
  function TestProduction(inj: Rule): Production
    requires IsInjection(inj)
  {
    Production(Seq(Seq(Prod(Child(inj)), Prod(Child(inj))), inj), ConstructInt)
  }

  /** The test production compiles against exactly the states its injection
      fits. Against the other state the child's `++i` cannot bind an `int&`:
      `parse_state` on the record hands it a `state&`, and
      `parse_state_member` does not apply to a plain int. Without a state
      `++i` receives no argument. */
  lemma TestProductionTyped(inj: Rule, sh: Shape)
    requires IsInjection(inj)
    ensures Typed(Prod(TestProduction(inj)), sh) <==> Fits(sh, InjectedLoc(inj))
  {
    var child := Prod(Child(inj));
    assert Sig(child, sh) == [];
    assert Sig(Seq(Seq(child, child), inj), sh) == Sig(inj, sh);
    if Fits(sh, InjectedLoc(inj)) {
      assert Typed(inj, sh) && Sig(inj, sh) == [RefKind(InjectedLoc(inj))];
      assert Typed(child, sh);
    } else {
      assert !Typed(child, sh);
    }
  }

  /** The rule of the test production runs as a chain of two children: it
      matches at its start, adds two to the int, and hands on one reference. */
  lemma TestBodyCounts(inj: Rule, input: string, st: State)
    requires IsInjection(inj)
    requires Load(st, InjectedLoc(inj)).Some?
    ensures var o := Exec(TestProduction(inj).rule, input, 0, st);
      && o.status == Matched(0)
      && Load(o.state, InjectedLoc(inj)) == Some(Load(st, InjectedLoc(inj)).value + 2)
      && o.values == [Ref(InjectedLoc(inj))]
  {
    var a := Prod(Child(inj));
    SeqAssociative(a, a, inj, input, 0, st);
    ChainCounts(2, inj, input, 0, st);
  }

  /** Parsing the test production on any input succeeds without consuming
      anything; the two child productions each increment the one shared
      state, so its int ends up two larger, and the production's value is
      that final int. */
  lemma TestProductionCounts(inj: Rule, input: string, st: State)
    requires IsInjection(inj)
    requires Load(st, InjectedLoc(inj)).Some?
    ensures var res := Parse(TestProduction(inj), input, st);
      && res.status == Matched(0)
      && res.value == Some(Load(st, InjectedLoc(inj)).value + 2)
      && Load(res.state, InjectedLoc(inj)) == res.value
  {
    TestBodyCounts(inj, input, st);
    ConstructFromRef(TestProduction(inj).rule, input, 0, st);
  }

  /** `parse_state` with the rvalue state `0`: on empty input the parse
      succeeds with value 2. */
  method ParseStateRvalue() returns (status: Status, value: Option<int>)
    ensures status == Matched(0) && value == Some(2)
  {
    TestProductionCounts(ParseState, "", IntState(0));
    var res := Parse(TestProduction(ParseState), "", IntState(0));
    status := res.status;
    value := res.value;
  }

  /** `parse_state` with an lvalue state initialised to 0: the parse
      succeeds with value 2, and the caller's own variable now holds 2. */
  method ParseStateLvalue() returns (status: Status, value: Option<int>, after: State)
    ensures status == Matched(0) && value == Some(2) && after == IntState(2)
  {
    var cell := new StateCell(IntState(0));
    TestProductionCounts(ParseState, "", IntState(0));
    status, value := ParseInto(TestProduction(ParseState), "", cell);
    after := cell.state;
  }

  /** `parse_state_member<&state::i>` with the rvalue state `state{0}`: on
      empty input the parse succeeds with value 2. */
  method ParseStateMemberRvalue() returns (status: Status, value: Option<int>)
    ensures status == Matched(0) && value == Some(2)
  {
    TestProductionCounts(ParseStateMember, "", RecordState(0));
    var res := Parse(TestProduction(ParseStateMember), "", RecordState(0));
    status := res.status;
    value := res.value;
  }

  /** `parse_state_member<&state::i>` with an lvalue `state{0}`: the parse
      succeeds with value 2, and the caller's object has `i == 2`. */
  method ParseStateMemberLvalue() returns (status: Status, value: Option<int>, after: State)
    ensures status == Matched(0) && value == Some(2) && after == RecordState(2)
  {
    var cell := new StateCell(RecordState(0));
    TestProductionCounts(ParseStateMember, "", RecordState(0));
    status, value := ParseInto(TestProduction(ParseStateMember), "", cell);
    after := cell.state;
  }
}
