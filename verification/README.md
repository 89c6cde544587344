# lexy branch combinator and parse-state injection, in Dafny

This project models two small pieces of the lexy parser-combinator DSL:

- **The branch combinator** (`include/lexy/dsl/branch.hpp`). `condition >> then`
  builds a conditioned branch `_br<Condition, Then>`, and `branch(pattern)`
  builds a bare branch `_br<Pattern, void>`. Both are checked at construction
  time: the condition must be a pattern, and its matcher must not set an id.
  A branch exposes `condition()`, `then_parser`, `has_matcher`, `matcher` and
  `parser`. A conditioned branch parses as the committing sequence
  `Condition + Then`. A bare branch parses exactly as its pattern.
- **The state-injection rules** `dsl::parse_state` and
  `dsl::parse_state_member<&state::i>` (behaviour as asserted in
  `tests/lexy/dsl/parse_state.cpp`). Each is a zero-width rule that always
  succeeds and is not a pattern. Each hands its production a reference to the
  one ambient state of the parse, or to its field `i`. Every nested production
  sees the same state, so an increment made by one child production is seen by
  the next one and by the caller.

Layout, one module per file:

- `wrappers.dfy` (`Wrappers`): `Option` and `Result`.
- `rules.dfy` (`Rules`): the rule datatype; the static traits `IsPattern`
  (`has_matcher`), `SetsId` (`matcher::sets_id`) and `WellFormed`; and `Run`, the
  position-only view of a rule (where the cursor ends, or failure).
- `state.dfy` (`ParseStates`): the ambient state (or its absence) and its
  shape, the references the injection rules hand out, and the two callbacks of
  the tests.
- `exec.dfy` (`Parsing`): `Exec`, the parser's view. It threads the ambient
  state and collects the values handed to each production's callback. This
  file also holds the top-level `Parse`, and `ExecInto`/`ParseInto`, which run
  the same parse against one caller-owned state object updated in place. It
  also holds the compile check `Typed` and its proofs.
- `branch.dfy` (`Branches`): `operator>>`, `branch`, `condition()` and
  `then_parser`, with their lemmas.
- `injection.dfy` (`StateInjection`): the injection rules and the scenarios of
  the state tests.

Modelling decisions:

- C++ resolves rules as types at compile time. Here a rule is a value of a
  closed datatype: `Lit`, `Tagged` (a pattern whose matcher sets an id), `Seq`,
  `Br(cond, Option<body>)`, `ParseState`, `ParseStateMember` and `Prod`
  (`dsl::p<P>`).
- The `static_assert`s of `operator>>` and `branch` become preconditions of
  `MkBranch` and `MkBareBranch`. The checked builders `TryBranch` and
  `TryAsBranch` return the failing check as an error value.
- `Seq` is a minimal committing sequence. It runs the first rule; if that
  succeeds it runs the second from where the first ended; if either fails, the
  sequence fails.
- `lexy::is_pattern` is taken to be the rule's `has_matcher` flag. This matches
  how `_br` declares `has_matcher` at branch.hpp:25 and 50. The definition in
  `base.hpp` is not part of this model.
- The ambient state is threaded explicitly through `Exec`: a rule takes a
  state and returns the state afterwards. A caller-owned (lvalue) state is a
  `StateCell` object. `ExecInto` runs a rule against that one object with no
  copy: each child production's callback writes the object in place when the
  production ends, and later rules read it from there. Its contract proves
  that this in-place run ends in exactly the state, status and values that
  `Exec` computes.
- The ambient state is a plain int, the record, or absent (`NoState`). It is
  absent when a rule runs under a handler that carries no parse state, as in
  the checks that run an injection rule on its own with a bare `success`
  callback (tests/lexy/dsl/parse_state.cpp:31-53 and 96-118). There the
  injection still succeeds at its start, and it hands on nothing.
- `parse_state` hands on a reference to the whole state, whatever its type:
  an `int&` for the plain int, a `state&` for the record. The model's
  `Ref(Whole)` is that reference in both cases. `parse_state_member` hands on
  an `int&` to field `i`, so it needs the record.
- Two kinds of program do not compile in C++:
  - a callback that cannot take the values it is given, such as `++i` or
    `construct<int>` handed the `state&` of `parse_state` on the record;
  - `parse_state_member` on a plain int, which has no field `i`.

  The static predicate `Parsing.Typed(r, shape)` is that compile check: every
  field selector names a field of the state, and every callback accepts the
  kinds of values its rule hands on. `TypedNeverRejected` proves that a typed program
  is never rejected on any input. `TypedExecIsRun` proves that a typed
  program's parser status is exactly the matcher's result. When an untyped
  program is run anyway, it reports `Rejected` only if the parse reaches the
  offending callback or field selector (see "Left out").
- Three static traits of the rules carry no contract of their own and are
  used in the contracts below:
  - `Rules.IsPattern` is `has_matcher` and `lexy::is_pattern`
    (include/lexy/dsl/branch.hpp:25, 50, 67 and 75).
  - `Rules.SetsId` is `matcher::sets_id` (include/lexy/dsl/branch.hpp:28, 52,
    68 and 76). It is only meaningful where `IsPattern` holds, which is the
    only place the branch checks read it.
  - `Rules.ValidCondition` is the conjunction of the two branch checks
    (include/lexy/dsl/branch.hpp:67-68 and 75-76).
- The branch-split lemmas state `then_parser` without its `NextParser`
  argument: `RunThen` and `ExecThen` give the result of the `then` part alone.
  Chaining a continuation after it is ordinary sequencing.

## Model

| member | source | states |
|---|---|---|
| Rules.Run | include/lexy/dsl/branch.hpp:27-30 | A rule either fails or moves the cursor forward, never past the end of the input. |
| Parsing.Exec | tests/lexy/dsl/parse_state.cpp:13-24 | The parser threads the one ambient state through every rule and child production. The cursor stays within the input, a failed rule produces no values, and the shape of the state never changes. |
| Parsing.ExecRefinesRun | include/lexy/dsl/branch.hpp:27-30 | Unless the program is rejected (a callback or an injection that does not fit), the parser's status agrees with the matcher's result. Threading the state never changes what a rule matches. |
| Parsing.TypedNeverRejected | tests/lexy/dsl/parse_state.cpp:13-24 | A program that passes the compile check is never rejected, on any input. When it matches, the values it hands on have exactly the statically assigned kinds. |
| Parsing.TypedExecIsRun | include/lexy/dsl/branch.hpp:27-30 | For a program that compiles, the parser's status equals the matcher's result on every input and state, with no extra hypothesis. |
| Parsing.PatternsArePure | include/lexy/dsl/branch.hpp:67-68 | A well-formed pattern only tests and moves the cursor: the state is unchanged and no values are produced. This is why a pattern condition can be tested speculatively. |
| Parsing.ConstructFromRef | tests/lexy/dsl/parse_state.cpp:19-23 | A production with `construct<int>` whose rule hands on one reference to an int produces that int as its value. It ends where its rule ended, in the state its rule left. |
| Parsing.SeqAssociative | tests/lexy/dsl/parse_state.cpp:21-22 | `a + b + c` means the same however the chain is grouped. |
| Parsing.Inject | tests/lexy/dsl/parse_state.cpp:41-52 | An injection rule leaves the state alone and never moves the cursor. Without a state it matches and hands on nothing. `parse_state` always matches in a state and hands on a reference to the whole state, whatever its type. `parse_state_member` hands on a reference to field `i` of the record, and on a plain int it is rejected. |
| Parsing.ExecInto | tests/lexy/dsl/parse_state.cpp:60-67 | Running a rule against one caller-owned object, written in place by each child production, ends in the same state, status and values as the functional threading. |
| Parsing.Parse | tests/lexy/dsl/parse_state.cpp:56-58 | A top-level parse reports a value only when it matched, and it ends within the input. |
| Parsing.ParseInto | tests/lexy/dsl/parse_state.cpp:62-66 | With an lvalue state, the parse reads and writes the caller's own object, which afterwards holds the final state, status and value of `Parse`. |
| ParseStates.Apply | tests/lexy/dsl/parse_state.cpp:16-23 | `++i` is void and raises the int reached through the injected reference by one. `construct<int>` leaves the state alone and yields the int it is given. |
| ParseStates.Store | tests/lexy/dsl/parse_state.cpp:80 | Writing through a reference makes a later read through it return the written value. It keeps the state's shape. |
| Branches.MkBranch | include/lexy/dsl/branch.hpp:64-70 | `c >> t` needs `c` to be a pattern that sets no id. The result's condition is `c` and its body is `t`. It has a matcher exactly when `t` does, and it sets an id exactly when `t` does. |
| Branches.MkBareBranch | include/lexy/dsl/branch.hpp:72-78 | `branch(p)` needs `p` to be a pattern that sets no id. The result's condition is `p`, it has no body, it always has a matcher, and it sets no id. |
| Branches.TryBranch | include/lexy/dsl/branch.hpp:67-68 | `c >> t` builds exactly when `c` is a pattern that sets no id. Otherwise it names the failed check: not a pattern, or sets an id. |
| Branches.TryAsBranch | include/lexy/dsl/branch.hpp:75-76 | `branch(r)` succeeds exactly when `r` is a branch or a pattern that sets no id. A branch comes back unchanged. A non-pattern gets "requires a condition", and an id-setting pattern gets "must not set an id". |
| Branches.Condition | include/lexy/dsl/branch.hpp:16-19 | `condition()` of a branch that passed the construction checks is a well-formed pattern that sets no id. Because it is a pattern, it can be tested speculatively. |
| Branches.AsBranch | include/lexy/dsl/branch.hpp:57-60 | `branch` applied to a branch returns that branch. Applied to a pattern, it returns a bare branch whose condition is that pattern. |
| Branches.RunThen | include/lexy/dsl/branch.hpp:46-47 | A bare branch's `then_parser` is the continuation itself: it succeeds where it starts. |
| Branches.ExecThen | include/lexy/dsl/branch.hpp:21-22 | `then_parser` runs the body alone. For a bare branch it leaves position and state unchanged and produces nothing. |
| Branches.ConditionThenRun | include/lexy/dsl/branch.hpp:16-30 | Testing `condition()` and then running `then_parser` from where it ended gives the branch's own result. A failed condition fails the branch. A matched one commits to the body, and no alternative is tried. |
| Branches.ConditionThenExec | include/lexy/dsl/branch.hpp:63 | "Then only after Condition": if the condition fails, the state is unchanged and no body runs. If it matches, the branch is exactly the body run from the condition's end in the unchanged state. |
| Branches.BareBranchIsPattern | include/lexy/dsl/branch.hpp:52-54 | A bare branch matches and parses exactly as its pattern, on every input and state. |
| Branches.BranchIsSequence | include/lexy/dsl/branch.hpp:27-30 | A conditioned branch matches (`Run`) and parses (`Exec`) exactly as the sequence `Condition + Then`, on every input and state. |
| Branches.AsBranchIdempotent | include/lexy/dsl/branch.hpp:33-36 | `branch(branch(r)) == branch(r)`. |
| Branches.EmptyConditionThenLiteral | include/lexy/dsl/branch.hpp:63 | A zero-width condition followed by a one-character literal advances exactly one character on that character. It fails on any other input. |
| StateInjection.InjectionIsNotPattern | tests/lexy/dsl/parse_state.cpp:33-35 | `parse_state` and `parse_state_member` are rules but not patterns, so neither can be a branch condition. |
| StateInjection.InjectionIsZeroWidth | tests/lexy/dsl/parse_state.cpp:41-52 | Both injection rules succeed at the start position on every input, including `""` and `"abc"`, and leave the state untouched. Under a handler without a state they hand on nothing. `parse_state` hands on the whole-state reference in every state, the record included. `parse_state_member` on a plain int is rejected on every input. |
| StateInjection.ChainCounts | tests/lexy/dsl/parse_state.cpp:13-22 | After `n` incrementing child productions, the shared int has grown by exactly `n`. Each child sees the state its predecessor left, and no input is consumed. |
| StateInjection.TestProductionTyped | tests/lexy/dsl/parse_state.cpp:19-24 | The test production compiles exactly against the state its injection fits: the int for `parse_state` and the record for `parse_state_member`. On the record, `parse_state` hands a `state&` that `++i` cannot bind. It does not compile without a state. |
| StateInjection.WholeRecordReachesCallback | tests/lexy/dsl/parse_state.cpp:13-17 | On the record, `parse_state` itself compiles and matches, handing on a `state&`. The child production over it is rejected because its `int&` callback cannot take that reference. |
| StateInjection.TestProductionCounts | tests/lexy/dsl/parse_state.cpp:19-24 | `p<child> + p<child> + inj` with `construct<int>` succeeds on any input. Its value is the initial int plus 2, and the final state holds that value. |
| StateInjection.ParseStateRvalue | tests/lexy/dsl/parse_state.cpp:54-59 | With the rvalue state 0 on `""`, the parse succeeds with value 2. |
| StateInjection.ParseStateLvalue | tests/lexy/dsl/parse_state.cpp:60-67 | With the lvalue state 0 on `""`, the parse succeeds with value 2, and the caller's variable is 2. |
| StateInjection.ParseStateMemberRvalue | tests/lexy/dsl/parse_state.cpp:119-124 | With `state{0}` as an rvalue, the member variant succeeds with value 2. |
| StateInjection.ParseStateMemberLvalue | tests/lexy/dsl/parse_state.cpp:125-132 | With `state{0}` as an lvalue, the member variant succeeds with value 2, and `state_obj.i == 2`. |

## Left out

- `sequence.hpp` and `base.hpp` are not part of this model. The sequence is
  the minimal committing `Seq` above. Its matcher flag is "both halves have a
  matcher", and its `sets_id` is "either half sets an id".
- The matcher/parser template machinery and the `NextParser` continuation
  argument are left out. `then_parser` and `parser` are modelled by their
  results.
- Compile-time mechanics (`LEXY_CONSTEVAL`, `static_assert`, type aliases)
  become preconditions and datatype values.
- The callback/value layer is reduced to two callbacks: increment the injected
  int, and `construct<int>`. Values are references into the state or ints.
- The following are left out: production recursion, the input abstraction,
  diagnostics and error messages, and the test harness of
  `tests/lexy/dsl/parse_state.cpp`. `zstring_input` and cursors become a
  string and a natural-number position. `Parse` starts at position 0 and does
  not require the input to be consumed.
- Member pointers in general are left out. Only the single-field `state{int i}`
  of the tests is modelled, so the model makes no claim about other fields.
- Parsing.Exec — an untyped program (one `Typed` rejects) that fails on the
  input before reaching its ill-fitting callback or field selector reports
  `NoMatch`, where C++ would refuse to compile it at all. `Typed` is the
  model's compile check, and only typed programs are promised to behave as
  the source does.
- Rules.Tagged — setting an id is not modelled. `Tagged` matches and parses
  exactly as its pattern does, and no semantic action reads the id. So the
  model carries the `sets_id` check of `operator>>` and `branch`
  (branch.hpp:68, 76) as a construction rule only. It does not show why a
  condition must not set an id: purity and speculative testing hold for
  `Tagged` patterns as well.
- ParseStates.Apply — the state's int is Dafny's unbounded `int`. `++i` at
  `INT_MAX` is undefined behaviour in C++, and that overflow is not modelled.
- StateInjection.ChainCounts — growth by exactly `n` holds for the unbounded
  int. For the C++ `int` it holds only while the start value plus `n` stays
  within range; the same applies to `StateInjection.TestProductionCounts`.
- The conditioned branch takes `has_matcher` from its body, as the code does
  (branch.hpp:25). The model does not decide whether this is intended when the
  body is not a pattern.
