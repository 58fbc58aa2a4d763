/** Description of one tunable parameter of the Go service and its validation. */
module ParameterDescriptions {
  import opened Wrappers

  /** Reasonable bounds for varying a parameter; validation never looks at them. */
  datatype Bound = Bound(from: int, to: int)

  /** Identity of a ConfigModifier callback, the function that injects a value into the service configuration. */
  type ModifierId = nat

  /** One call of a ConfigModifier: which callback, with which value. */
  datatype ModifierCall = ModifierCall(modifier: ModifierId, value: int)

  /** `bound` and `configModifier` are Go pointers and funcs, so either may be nil (None). */
  datatype ParameterDescription = ParameterDescription(
    bound: Option<Bound>,
    configModifier: Option<ModifierId>,
    name: string)

  datatype ParameterError =
    | NameMismatch(name: string)
    | EmptyConfigModifier

  /** A member of the character class [a-zA-Z0-9_]. */
  predicate IsNameChar(c: char) {
    ('a' <= c <= 'z') || ('A' <= c <= 'Z') || ('0' <= c <= '9') || c == '_'
  }

  /** The unanchored search for the class: true when the scan meets a class character anywhere in `s`. */
  function MatchesNamePattern(s: string): bool {
    if s == [] then false else IsNameChar(s[0]) || MatchesNamePattern(s[1..])
  }

  /** An unanchored one-character pattern matches exactly when some character of the name is in the class. */
  lemma {:induction false} MatchesNamePatternIff(s: string)
    ensures MatchesNamePattern(s) <==> exists i :: 0 <= i < |s| && IsNameChar(s[i])
  {
    if s != [] {
      MatchesNamePatternIff(s[1..]);
      if MatchesNamePattern(s[1..]) {
        var i :| 0 <= i < |s[1..]| && IsNameChar(s[1..][i]);
        assert IsNameChar(s[i + 1]);
      }
      if exists i :: 0 <= i < |s| && IsNameChar(s[i]) {
        var i :| 0 <= i < |s| && IsNameChar(s[i]);
        if i > 0 {
          assert IsNameChar(s[1..][i - 1]);
        }
      }
    }
  }

  /** The name check runs first, then the modifier check; the bound is not inspected. */
  function Validate(pd: ParameterDescription): (r: Option<ParameterError>)
    ensures r.None? <==> (exists i :: 0 <= i < |pd.name| && IsNameChar(pd.name[i])) && pd.configModifier.Some?
    ensures r == Some(NameMismatch(pd.name)) <==> forall i :: 0 <= i < |pd.name| ==> !IsNameChar(pd.name[i])
    ensures r == Some(EmptyConfigModifier) <==>
      (exists i :: 0 <= i < |pd.name| && IsNameChar(pd.name[i])) && pd.configModifier.None?
  {
    MatchesNamePatternIff(pd.name);
    if !MatchesNamePattern(pd.name) then Some(NameMismatch(pd.name))
    else if pd.configModifier.None? then Some(EmptyConfigModifier)
    else None
  }

  /** Because the pattern is unanchored, a single class character suffices anywhere in the name. */
  lemma {:induction false} UnanchoredNameExamples(m: ModifierId, b: Option<Bound>)
    ensures Validate(ParameterDescription(b, Some(m), "a-b")).None?
    ensures Validate(ParameterDescription(b, Some(m), "-x")).None?
    ensures Validate(ParameterDescription(b, Some(m), "")) == Some(NameMismatch(""))
    ensures Validate(ParameterDescription(b, Some(m), "-")) == Some(NameMismatch("-"))
  {
    assert IsNameChar("a-b"[0]);
    assert IsNameChar("-x"[1]);
    assert !IsNameChar("-"[0]);
  }

  /** A bad name is reported even when the modifier is also missing: the name check comes first. */
  lemma NameErrorTakesPrecedence(b: Option<Bound>, name: string)
    requires forall i :: 0 <= i < |name| ==> !IsNameChar(name[i])
    ensures Validate(ParameterDescription(b, None, name)) == Some(NameMismatch(name))
  {
  }

  /** The bound plays no part: replacing it, even by a reversed one (From > To), keeps the verdict. */
  lemma ValidateIgnoresBound(pd: ParameterDescription, b: Option<Bound>)
    ensures Validate(pd.(bound := b)) == Validate(pd)
  {
  }
}
