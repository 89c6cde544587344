/**
  Rule descriptors of the grammar DSL, their static shape (is it a pattern,
  does its matcher set an id) and their position semantics.

  The framework resolves all of this at compile time through types; here a
  rule is a value of a closed datatype and the static traits are predicates
  over it.
 */
module Rules {
  import opened Wrappers

  /** What a production does with the values its rule produced. Only the two
      callbacks the state tests use are modelled: increment the injected int
      (void result), and construct an int from the injected reference. */
  datatype Callback = Increment | ConstructInt

  /** A production: a rule plus the callback that turns its values into the
      production's own value. */
  datatype Production = Production(rule: Rule, value: Callback)

  datatype Rule =
      /** A literal pattern: matches exactly `text` at the cursor. */
    | Lit(text: string)
      /** A pattern whose matcher sets an id; matches like `pattern`. */
    | Tagged(pattern: Rule)
      /** Committing sequence: `first`, then `second` from where `first` ended. */
    | Seq(first: Rule, second: Rule)
      /** A branch: `Br(c, Some(t))` is `c >> t`, `Br(p, None)` is `branch(p)`. */
    | Br(cond: Rule, body: Option<Rule>)
      /** `dsl::parse_state`: injects a reference to the whole parse state. */
    | ParseState
      /** `dsl::parse_state_member<&state::i>`: injects a reference to field `i`. */
    | ParseStateMember
      /** `dsl::p<P>`: parses production `P` as a child production. */
    | Prod(production: Production)

  /** Number of constructors in a rule; the termination measure of the
      semantics, since a conditioned branch runs as the sequence of its parts. */
  function Size(r: Rule): nat
  {
    match r
    case Lit(_) => 1
    case Tagged(p) => 1 + Size(p)
    case Seq(a, b) => 1 + Size(a) + Size(b)
    case Br(c, Some(t)) => 2 + Size(c) + Size(t)
    case Br(p, None) => 1 + Size(p)
    case ParseState => 1
    case ParseStateMember => 1
    case Prod(p) => 1 + Size(p.rule)
  }

  /** The `has_matcher` flag; `lexy::is_pattern` is a rule with this flag set.
      A sequence has a matcher only if both halves do; a conditioned branch
      inherits the flag of its body; a bare branch always has one. */
  predicate IsPattern(r: Rule)
  {
    match r
    case Lit(_) => true
    case Tagged(p) => IsPattern(p)
    case Seq(a, b) => IsPattern(a) && IsPattern(b)
    case Br(_, Some(t)) => IsPattern(t)
    case Br(_, None) => true
    case ParseState => false
    case ParseStateMember => false
    case Prod(_) => false
  }

  /** The `matcher::sets_id` flag. A conditioned branch's matcher is the
      matcher of the sequence `Condition + Then`; a bare branch's is the
      pattern's own. The flag is read only where `IsPattern` holds, as the
      branch checks test it after the pattern check; on a rule without a
      matcher its value has no counterpart in the framework. */
  predicate SetsId(r: Rule)
  {
    match r
    case Lit(_) => false
    case Tagged(_) => true
    case Seq(a, b) => SetsId(a) || SetsId(b)
    case Br(c, Some(t)) => SetsId(c) || SetsId(t)
    case Br(p, None) => SetsId(p)
    case ParseState => false
    case ParseStateMember => false
    case Prod(_) => false
  }

  /** A branch condition must be a pattern whose matcher sets no id. */
  predicate ValidCondition(c: Rule)
  {
    IsPattern(c) && !SetsId(c)
  }

  /** Every rule reachable from `r` could have been built through the DSL:
      each branch passed the construction-time checks and each id-setting
      wrapper wraps a pattern. */
  predicate WellFormed(r: Rule)
  {
    match r
    case Lit(_) => true
    case Tagged(p) => IsPattern(p) && WellFormed(p)
    case Seq(a, b) => WellFormed(a) && WellFormed(b)
    case Br(c, Some(t)) => ValidCondition(c) && WellFormed(c) && WellFormed(t)
    case Br(p, None) => ValidCondition(p) && WellFormed(p)
    case ParseState => true
    case ParseStateMember => true
    case Prod(p) => WellFormed(p.rule)
  }

  /** Where the cursor ends if `r` succeeds at `pos` of `input`, or None if
      it fails. A conditioned branch runs as the sequence `Condition + Then`;
      a bare branch runs as its pattern. The cursor never moves backwards or
      past the end of the input. */
  function Run(r: Rule, input: string, pos: nat): (res: Option<nat>)
    requires pos <= |input|
    ensures res.Some? ==> pos <= res.value <= |input|
    decreases Size(r)
  {
    match r
    case Lit(s) =>
      if pos + |s| <= |input| && input[pos..pos + |s|] == s then Some(pos + |s|) else None
    case Tagged(p) => Run(p, input, pos)
    case Seq(a, b) =>
      (match Run(a, input, pos)
       case None => None
       case Some(k) => Run(b, input, k))
    case Br(c, Some(t)) => Run(Seq(c, t), input, pos)
    case Br(p, None) => Run(p, input, pos)
    case ParseState => Some(pos)
    case ParseStateMember => Some(pos)
    case Prod(p) => Run(p.rule, input, pos)
  }
}
