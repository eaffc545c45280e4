/**
 * What `$replace` promises, stated over the model in module ReplaceFunction:
 * the order of the validation cascade, the context-value convention, and the
 * meaning of the bounded path.
 */
module ReplaceProperties {
  import opened ReplaceFunction

  /** The arguments in their logical positions once the context value has been substituted. */
  function Effective(call: Call): seq<Value>
  {
    if call.useContext then [call.context] + call.args else call.args
  }

  /** Logical argument `i`: 0 subject, 1 pattern, 2 replacement, 3 limit. */
  function Positional(call: Call, i: nat): Value
  {
    var e := Effective(call);
    if i < |e| then e[i] else Undefined
  }

  predicate NonEmptyText(v: Value)
  {
    v.Text? && v.text != []
  }

  /** Subject, pattern and replacement all pass their checks. */
  predicate TextualArguments(call: Call)
  {
    && ArgumentCount(call) >= 3
    && Positional(call, 0).Text?
    && NonEmptyText(Positional(call, 1))
    && Positional(call, 2).Text?
  }

  /** The limit is not read (not exactly four arguments), has no value, or is a non-negative number. */
  predicate LimitAccepted(call: Call)
  {
    || ArgumentCount(call) != 4
    || Positional(call, 3) == Undefined
    || (Positional(call, 3).Num? && Positional(call, 3).n >= 0)
  }

  /** Every check of `invoke` passes; what remains is the engine call. */
  predicate ArgumentsAccepted(call: Call)
  {
    TextualArguments(call) && LimitAccepted(call)
  }

  // ---------------------------------------------------------------------------
  // Context substitution

  /**
   * Using the context value adds exactly one to the argument count and shifts
   * the pattern, replacement and limit down one written position; the call
   * then behaves exactly as if the context value had been written as the
   * first argument.
   */
  lemma ContextIsFirstArgument(call: Call, other: Value, replaceAll: Rewriter, replaceFirst: Rewriter)
    requires call.useContext
    ensures ArgumentCount(call) == |call.args| + 1 == |Effective(call)|
    ensures forall i :: 1 <= i <= 3 ==> Positional(call, i) == ValueAt(call, i - 1)
    ensures Invoke(call, replaceAll, replaceFirst)
         == Invoke(Call(false, other, Effective(call)), replaceAll, replaceFirst)
  {
  }

  // ---------------------------------------------------------------------------
  // The validation cascade, one outcome at a time

  /**
   * A subject that is absent, null or not a string is rejected before any
   * other argument is read, whatever the other arguments are.
   */
  lemma SubjectCheckedFirst(call: Call, replaceAll: Rewriter, replaceFirst: Rewriter)
    ensures Invoke(call, replaceAll, replaceFirst) == Err(Arg1BadType) <==> !Positional(call, 0).Text?
  {
  }

  /** With a string subject and nothing else, `invoke` returns null and raises nothing. */
  lemma SubjectAloneYieldsNull(call: Call, replaceAll: Rewriter, replaceFirst: Rewriter)
    ensures Invoke(call, replaceAll, replaceFirst) == NullResult
        <==> ArgumentCount(call) == 1 && Positional(call, 0).Text?
  {
  }

  /**
   * An empty pattern is rejected as soon as the subject has passed, before the
   * replacement or the limit is read and before any engine call: the outcome
   * is the same for every engine.
   */
  lemma EmptyPatternRejected(call: Call, replaceAll: Rewriter, replaceFirst: Rewriter,
                             replaceAll': Rewriter, replaceFirst': Rewriter)
    ensures Invoke(call, replaceAll, replaceFirst) == Err(Arg2EmptyStr)
        <==> ArgumentCount(call) >= 2 && Positional(call, 0).Text? && Positional(call, 1) == Text([])
    ensures Invoke(call, replaceAll, replaceFirst) == Err(Arg2EmptyStr)
        ==> Invoke(call, replaceAll', replaceFirst') == Err(Arg2EmptyStr)
  {
  }

  /**
   * The second-argument error covers two cases: a pattern that is not a
   * string, and a valid pattern with no replacement argument after it.
   */
  lemma PatternOrMissingReplacement(call: Call, replaceAll: Rewriter, replaceFirst: Rewriter)
    ensures Invoke(call, replaceAll, replaceFirst) == Err(Arg2BadType)
        <==> && ArgumentCount(call) >= 2
             && Positional(call, 0).Text?
             && (!Positional(call, 1).Text? || (NonEmptyText(Positional(call, 1)) && ArgumentCount(call) == 2))
  {
  }

  /**
   * A replacement that is not a string (a function value included) is
   * rejected, and the limit is never read: the outcome is the same whatever
   * the fourth argument is.
   */
  lemma ReplacementMustBeText(call: Call, limit: Value, replaceAll: Rewriter, replaceFirst: Rewriter)
    ensures Invoke(call, replaceAll, replaceFirst) == Err(Arg3BadType)
        <==> && ArgumentCount(call) >= 3
             && Positional(call, 0).Text?
             && NonEmptyText(Positional(call, 1))
             && !Positional(call, 2).Text?
    ensures ArgumentCount(call) == 4 && Invoke(call, replaceAll, replaceFirst) == Err(Arg3BadType)
        ==> Invoke(WithLimit(call, limit), replaceAll, replaceFirst) == Err(Arg3BadType)
  {
    if ArgumentCount(call) == 4 {
      WithLimitKeepsOthers(call, limit);
    }
  }

  /** The call with its last written argument (the limit when there are four) replaced. */
  function WithLimit(call: Call, limit: Value): Call
  {
    if call.args == [] then call else call.(args := call.args[|call.args| - 1 := limit])
  }

  lemma WithLimitKeepsOthers(call: Call, limit: Value)
    requires ArgumentCount(call) == 4
    ensures ArgumentCount(WithLimit(call, limit)) == 4
    ensures WithLimit(call, limit).useContext == call.useContext
    ensures forall i :: 0 <= i < 3 ==> Positional(WithLimit(call, limit), i) == Positional(call, i)
    ensures Positional(WithLimit(call, limit), 3) == limit
  {
  }

  /**
   * Only a fourth argument is examined as a limit, and it is rejected when it
   * has a value that is not a non-negative number (a JSON null included).
   */
  lemma LimitMustBeNonNegativeNumber(call: Call, replaceAll: Rewriter, replaceFirst: Rewriter)
    ensures Invoke(call, replaceAll, replaceFirst) == Err(Arg4BadType)
        <==> && TextualArguments(call)
             && ArgumentCount(call) == 4
             && Positional(call, 3) != Undefined
             && !(Positional(call, 3).Num? && Positional(call, 3).n >= 0)
  {
  }

  // ---------------------------------------------------------------------------
  // The two execution paths

  /**
   * Three arguments, a fourth with no value, or more than four arguments
   * (whose extra ones are ignored): one `replaceAll` over the subject, whose
   * result is returned and whose failure propagates.
   */
  lemma UnlimitedPath(call: Call, replaceAll: Rewriter, replaceFirst: Rewriter)
    requires TextualArguments(call)
    requires ArgumentCount(call) != 4 || Positional(call, 3) == Undefined
    ensures var r := replaceAll(Positional(call, 0).text, Positional(call, 1).text, Positional(call, 2).text);
            Invoke(call, replaceAll, replaceFirst) == if r.Some? then Ok(r.value) else Err(EngineFailure)
  {
  }

  /**
   * A non-negative limit `n`: `replaceFirst` applied `n` times to the
   * rewritten string; the first failing call makes `invoke` fail.
   */
  lemma BoundedPath(call: Call, replaceAll: Rewriter, replaceFirst: Rewriter)
    requires TextualArguments(call)
    requires ArgumentCount(call) == 4 && Positional(call, 3).Num? && Positional(call, 3).n >= 0
    ensures var r := Iterate(replaceFirst, Positional(call, 0).text, Positional(call, 1).text,
                             Positional(call, 2).text, Positional(call, 3).n);
            Invoke(call, replaceAll, replaceFirst) == if r.Some? then Ok(r.value) else Err(EngineFailure)
  {
  }

  /**
   * A limit of zero returns the subject as it is, whatever the engine would
   * match, and even for a pattern or replacement the engine would reject:
   * the engine is never called.
   */
  lemma LimitZeroIsIdentity(call: Call, replaceAll: Rewriter, replaceFirst: Rewriter)
    requires TextualArguments(call)
    requires ArgumentCount(call) == 4 && Positional(call, 3) == Num(0)
    ensures Invoke(call, replaceAll, replaceFirst) == Ok(Positional(call, 0).text)
  {
  }

  /**
   * When the engine finds nothing to replace in the subject, the result of a
   * call whose arguments pass is the subject, on both paths and for every limit.
   */
  lemma NoMatchLeavesSubject(call: Call, replaceAll: Rewriter, replaceFirst: Rewriter)
    requires ArgumentsAccepted(call)
    requires var s, p, r := Positional(call, 0).text, Positional(call, 1).text, Positional(call, 2).text;
             replaceAll(s, p, r) == Some(s) && replaceFirst(s, p, r) == Some(s)
    ensures Invoke(call, replaceAll, replaceFirst) == Ok(Positional(call, 0).text)
  {
  }

  /**
   * Every outcome is null, a string, an error of the first four arguments, or
   * an engine failure; the engine is reached (a string or an engine failure)
   * exactly when every check of `invoke` passes.
   */
  lemma OutcomeIsClassified(call: Call, replaceAll: Rewriter, replaceFirst: Rewriter)
    ensures var result := Invoke(call, replaceAll, replaceFirst);
            result.Err? ==> result.kind in {Arg1BadType, Arg2BadType, Arg2EmptyStr, Arg3BadType, Arg4BadType,
                                            EngineFailure}
    ensures var result := Invoke(call, replaceAll, replaceFirst);
            result.Ok? || result == Err(EngineFailure) <==> ArgumentsAccepted(call)
  {
  }

  // ---------------------------------------------------------------------------
  // Iterated rewriting

  /**
   * `a + b` rewrites are `a` rewrites followed by `b` more on their result;
   * a failure among the first `a` is a failure of all `a + b`.
   */
  lemma {:induction false} IterateCompose(replaceFirst: Rewriter, s: string, pattern: string, replacement: string,
                                          a: nat, b: nat)
    ensures Iterate(replaceFirst, s, pattern, replacement, a + b)
         == match Iterate(replaceFirst, s, pattern, replacement, a)
            case None => None
            case Some(t) => Iterate(replaceFirst, t, pattern, replacement, b)
  {
    if b > 0 {
      IterateCompose(replaceFirst, s, pattern, replacement, a, b - 1);
    }
  }

  /**
   * Once a rewrite leaves the string unchanged (no match is left), every
   * larger limit gives the same result: the bounded path in effect stops
   * early when fewer than `limit` matches exist.
   */
  lemma {:induction false} IterateStabilises(replaceFirst: Rewriter, s: string, pattern: string, replacement: string,
                                             k: nat, m: nat)
    requires k <= m
    requires var t := Iterate(replaceFirst, s, pattern, replacement, k);
             t.Some? && replaceFirst(t.value, pattern, replacement) == t
    ensures Iterate(replaceFirst, s, pattern, replacement, m) == Iterate(replaceFirst, s, pattern, replacement, k)
  {
    IterateCompose(replaceFirst, s, pattern, replacement, k, m - k);
  }

  /**
   * The bounded path re-scans the rewritten string: one more rewrite is one
   * more `replaceFirst` on the result so far, not on the original subject.
   */
  lemma {:induction false} IterateRescans(replaceFirst: Rewriter, s: string, pattern: string, replacement: string,
                                          k: nat)
    ensures Iterate(replaceFirst, s, pattern, replacement, k + 1)
         == match replaceFirst(s, pattern, replacement)
            case None => None
            case Some(t) => Iterate(replaceFirst, t, pattern, replacement, k)
  {
    IterateCompose(replaceFirst, s, pattern, replacement, 1, k);
  }
}
