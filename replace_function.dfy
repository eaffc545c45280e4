/**
 * JSONata's `$replace(str, pattern, replacement [, limit])` as implemented by
 * `ReplaceFunction.invoke` in JSONata4Java.
 *
 * The regular-expression engine (Java's `String.replaceAll` and
 * `String.replaceFirst`) is not modelled: both are passed in as functions of
 * type `Rewriter`, so that everything proved here holds for every engine.
 * An engine call either yields the rewritten string or fails (Java throws
 * for a malformed pattern or a replacement string it cannot interpret), and
 * `invoke` lets that failure propagate.
 * The expression evaluator is reduced to a `Call`: the values of the written
 * arguments, whether the context value stands in for the omitted subject,
 * and that context value.
 */
module ReplaceFunction {

  /** A value the expression evaluator hands to `$replace`. */
  datatype Value =
    | Undefined           // the evaluator produced no value at all (a Java null reference)
    | Null                // the JSON null literal (a null node, which is not a Java null)
    | Text(text: string)  // a JSON string
    | Num(n: int)         // a JSON number with an integral value
    | Func                // a function value (lambda or built-in)
    | Other               // a boolean, an array or an object

  /** The evaluation errors `invoke` raises, one per message constant. */
  datatype ErrorKind =
    | Arg1BadType   // ERR_ARG1BADTYPE: the subject is not a string
    | Arg2BadType   // ERR_ARG2BADTYPE: the pattern is not a string, or no replacement follows it
    | Arg2EmptyStr  // ERR_MSG_ARG2_EMPTY_STR: the pattern is the empty string
    | Arg3BadType   // ERR_ARG3BADTYPE: the replacement is not a string
    | Arg4BadType   // ERR_ARG4BADTYPE: the limit is neither absent nor a non-negative number
    | Arg5BadType   // ERR_ARG5BADTYPE: only raised by the arity branch, which no call reaches
    | EngineFailure // an exception thrown by `replaceAll` or `replaceFirst` and not caught

  /** What `invoke` does: raise an error, return a Java null, or return a text node. */
  datatype Outcome = Err(kind: ErrorKind) | NullResult | Ok(value: string)

  datatype Option<T> = None | Some(value: T)

  /**
   * One call site of `$replace`: `args` are the values of the arguments written
   * in the call, in order; when `useContext` holds, the subject was omitted and
   * `context` (the context value) takes its place.
   */
  datatype Call = Call(useContext: bool, context: Value, args: seq<Value>)

  /**
   * `String.replaceAll` or `String.replaceFirst`: (subject, regex, replacement)
   * to the result, or None when the call throws.
   */
  type Rewriter = (string, string, string) -> Option<string>

  /** The outcome of a successful or failed engine call. */
  function FromEngine(r: Option<string>): Outcome
  {
    match r
    case Some(s) => Ok(s)
    case None => Err(EngineFailure)
  }

  /** The argument count `invoke` works with: the written arguments, plus one for the context. */
  function ArgumentCount(call: Call): nat
  {
    |call.args| + if call.useContext then 1 else 0
  }

  /**
   * The value of written argument `i`. Only the subject can be read past the
   * end (a call with no written argument that does not use the context); the
   * evaluator's answer there is taken to be no value.
   */
  function ValueAt(call: Call, i: nat): Value
  {
    if i < |call.args| then call.args[i] else Undefined
  }

  /**
   * The limit a fourth argument sets: -1 (no limit) when it has no value, its
   * integer when it is a non-negative number, and None when it is rejected.
   */
  function ReadLimit(argLimit: Value): (limit: Option<int>)
    ensures limit == Some(-1) <==> argLimit == Undefined
    ensures argLimit.Num? && argLimit.n >= 0 ==> limit == Some(argLimit.n)
    ensures limit.None? <==> argLimit != Undefined && !(argLimit.Num? && argLimit.n >= 0)
  {
    if argLimit == Undefined then Some(-1)
    else if argLimit.Num? && argLimit.n >= 0 then Some(argLimit.n)
    else None
  }

  /**
   * `replaceFirst` applied `k` times, each time to the string the previous
   * application produced (the bounded path re-scans the rewritten string);
   * None once a call fails. A subject the engine leaves unchanged stays
   * unchanged for every `k`.
   */
  function Iterate(replaceFirst: Rewriter, s: string, pattern: string, replacement: string, k: nat)
    : (r: Option<string>)
    ensures replaceFirst(s, pattern, replacement) == Some(s) ==> r == Some(s)
  {
    if k == 0 then Some(s)
    else
      match Iterate(replaceFirst, s, pattern, replacement, k - 1)
      case None => None
      case Some(t) => replaceFirst(t, pattern, replacement)
  }

  /** Once an engine call has failed, no further rewrite recovers. */
  lemma {:induction false} IterateFailureSticks(replaceFirst: Rewriter, s: string, pattern: string,
                                                replacement: string, j: nat, k: nat)
    requires j <= k
    requires Iterate(replaceFirst, s, pattern, replacement, j) == None
    ensures Iterate(replaceFirst, s, pattern, replacement, k) == None
  {
    if j < k {
      IterateFailureSticks(replaceFirst, s, pattern, replacement, j, k - 1);
    }
  }

  /**
   * The bounded path: `limit` successive `replaceFirst` calls on the
   * progressively rewritten string; a failing call ends it.
   */
  method BoundedReplace(replaceFirst: Rewriter, str: string, pattern: string, replacement: string, limit: nat)
    returns (result: Option<string>)
    ensures result == Iterate(replaceFirst, str, pattern, replacement, limit)
  {
    var retString := str;
    var i := 0;
    while i < limit
      invariant i <= limit
      invariant Iterate(replaceFirst, str, pattern, replacement, i) == Some(retString)
    {
      var next := replaceFirst(retString, pattern, replacement);
      if next.None? {
        // The engine's exception leaves the loop and `invoke`.
        IterateFailureSticks(replaceFirst, str, pattern, replacement, i + 1, limit);
        return None;
      }
      retString := next.value;
      i := i + 1;
    }
    return Some(retString);
  }

  /**
   * `invoke`: resolve the subject (explicit or context), validate the
   * arguments left to right, stopping at the first failure, and then take
   * either the `replaceAll` path or the bounded `replaceFirst` path.
   */
  function Invoke(call: Call, replaceAll: Rewriter, replaceFirst: Rewriter): (result: Outcome)
    ensures result != Err(Arg5BadType)
    ensures result == NullResult ==> ArgumentCount(call) == 1
    ensures result.Ok? || result == Err(EngineFailure) ==> ArgumentCount(call) >= 3
  {
    var argCount := ArgumentCount(call);
    // This guard holds for every integer, so the else branch is dead code.
    if argCount >= 1 || argCount <= 4 then
      var argString := if call.useContext then call.context else ValueAt(call, 0);
      if !argString.Text? then Err(Arg1BadType)
      else if argCount < 2 then NullResult
      else
        var argPattern := ValueAt(call, if call.useContext then 0 else 1);
        if !argPattern.Text? then Err(Arg2BadType)
        else if argPattern.text == [] then Err(Arg2EmptyStr)
        else if argCount < 3 then Err(Arg2BadType)
        else
          var argReplacement := ValueAt(call, if call.useContext then 1 else 2);
          if !argReplacement.Text? then Err(Arg3BadType)
          else
            var str, pattern, replacement := argString.text, argPattern.text, argReplacement.text;
            var limit :=
              if argCount == 4 then ReadLimit(ValueAt(call, if call.useContext then 2 else 3))
              else Some(-1);
            if limit.None? then Err(Arg4BadType)
            else if limit.value == -1 then FromEngine(replaceAll(str, pattern, replacement))
            else FromEngine(Iterate(replaceFirst, str, pattern, replacement, limit.value))
    else
      Err(if argCount == 0 then Arg1BadType
          else if argCount == 1 then Arg1BadType
          else if argCount == 2 then Arg2BadType
          else Arg5BadType)
  }
}
