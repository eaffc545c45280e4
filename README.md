# JSONata4Java `$replace`: a Dafny model

This project models `ReplaceFunction.invoke`, JSONata4Java's implementation of
JSONata's `$replace(str, pattern, replacement [, limit])`, and proves how it
behaves. The model covers:

- how the subject is resolved: the explicit first argument, or the context
  value when the subject is omitted;
- the left-to-right validation cascade and which error each failing check raises;
- the split between one `String.replaceAll` call and the bounded loop of
  `String.replaceFirst` calls.

The regular-expression engine is not modelled. `replaceAll` and
`replaceFirst` are parameters of type `Rewriter`, so every result holds for
every engine. A `Rewriter` returns the rewritten string, or None when the
Java call throws: for a malformed pattern such as `"("`, or for a
replacement Java cannot interpret, such as a lone `$`, `$9` past the last
group, or a trailing backslash. `invoke` does not catch these exceptions,
so they appear as the outcome `Err(EngineFailure)`. Where a property needs
"no match leaves the string unchanged", that is a hypothesis of the lemma.

Files:

- `replace_function.dfy` (module `ReplaceFunction`): the argument values
  (`Value`), the error kinds (`ErrorKind`), the outcome (`Err`, `NullResult`
  or `Ok`), a call site (`Call`), the decision function `Invoke`, the
  specification `Iterate` of the bounded path, and the loop `BoundedReplace`
  that is proved equal to it.
- `replace_properties.dfy` (module `ReplaceProperties`): lemmas about the
  cascade, about context substitution and about iterated rewriting.

Points where the code differs from JSONata's documentation (the code is followed):

- The arity guard `argCount >= 1 || argCount <= 4` holds for every count. Its
  else branch is dead, so `ERR_ARG5BADTYPE` is never raised.
- Calls with more than four effective arguments are accepted. The limit is
  then never read, the extra arguments are ignored, and `replaceAll` runs.
- A pattern with no replacement after it raises `ERR_ARG2BADTYPE`. There is
  no separate "missing replacement" or arity error.
- With one effective argument and a string subject, `invoke` returns null
  and raises nothing.
- A function value as the replacement raises `ERR_ARG3BADTYPE`. The callback
  form that the signature advertises is rejected.
- Only an argument that yields no value at all (a Java null reference) counts
  as "no limit". A JSON `null` limit is a null node, which is not a number,
  so it raises `ERR_ARG4BADTYPE`.
- Java's replacement syntax is used as it is. The documented `$N` template
  rules are not implemented by the code, so the model has none. Where Java
  rejects a replacement that JSONata accepts, the call fails with an
  engine exception. The documented example with replacement `$$$1` is one
  such call.
- The engine is called only on the paths that need it. With a limit of 0,
  a pattern that Java would reject still returns the subject; without a
  limit, the same call fails.

## Model

| member | source | states |
|---|---|---|
| ReplaceFunction.Invoke | src/main/java/com/api/jsonata4java/expressions/functions/ReplaceFunction.java:89-171 | `invoke` never raises ERR_ARG5BADTYPE because the arity else branch (lines 165-168) is unreachable; a null result only comes with exactly one effective argument; a string result or an engine failure needs at least three |
| ReplaceFunction.ReadLimit | src/main/java/com/api/jsonata4java/expressions/functions/ReplaceFunction.java:128-140 | a fourth argument with no value leaves the limit at -1; a non-negative number n sets the limit to n; it is rejected exactly when it has a value that is not a non-negative number |
| ReplaceFunction.Iterate | src/main/java/com/api/jsonata4java/expressions/functions/ReplaceFunction.java:149-153 | n successive `replaceFirst` rewrites of the current string, failing at the first engine failure; a subject that one rewrite leaves unchanged stays unchanged for every n |
| ReplaceFunction.IterateFailureSticks | src/main/java/com/api/jsonata4java/expressions/functions/ReplaceFunction.java:150-152 | once a `replaceFirst` call has failed, every larger limit fails too: the exception ends the loop |
| ReplaceFunction.BoundedReplace | src/main/java/com/api/jsonata4java/expressions/functions/ReplaceFunction.java:149-153 | the `for` loop returns exactly `limit` successive `replaceFirst` rewrites of the subject, or fails at the first failing call |
| ReplaceProperties.ContextIsFirstArgument | src/main/java/com/api/jsonata4java/expressions/functions/ReplaceFunction.java:95-130 | using the context adds exactly one to the argument count and shifts pattern, replacement and limit down one written index; the call behaves exactly like one with the context value written as the first argument |
| ReplaceProperties.SubjectCheckedFirst | src/main/java/com/api/jsonata4java/expressions/functions/ReplaceFunction.java:104-109 | ERR_ARG1BADTYPE is raised if and only if the subject is missing, null or not a string, whatever the other arguments are |
| ReplaceProperties.SubjectAloneYieldsNull | src/main/java/com/api/jsonata4java/expressions/functions/ReplaceFunction.java:107-110 | the result is null (line 170, no error) if and only if there is exactly one effective argument and it is a string |
| ReplaceProperties.EmptyPatternRejected | src/main/java/com/api/jsonata4java/expressions/functions/ReplaceFunction.java:115-118 | ERR_MSG_ARG2_EMPTY_STR is raised if and only if the subject is a string and the pattern is the empty string, before the replacement is examined; the outcome is the same for every regex engine |
| ReplaceProperties.PatternOrMissingReplacement | src/main/java/com/api/jsonata4java/expressions/functions/ReplaceFunction.java:115-163 | ERR_ARG2BADTYPE is raised if and only if the subject is a string and either the pattern is not a string or a valid pattern has no replacement after it |
| ReplaceProperties.ReplacementMustBeText | src/main/java/com/api/jsonata4java/expressions/functions/ReplaceFunction.java:119-157 | ERR_ARG3BADTYPE is raised if and only if subject and pattern pass and the replacement is not a string (function values included); the limit is never examined then: changing it does not change the outcome |
| ReplaceProperties.LimitMustBeNonNegativeNumber | src/main/java/com/api/jsonata4java/expressions/functions/ReplaceFunction.java:128-140 | ERR_ARG4BADTYPE is raised if and only if the first three arguments pass, there are exactly four, and the fourth has a value that is not a non-negative number |
| ReplaceProperties.UnlimitedPath | src/main/java/com/api/jsonata4java/expressions/functions/ReplaceFunction.java:143-146 | with valid arguments and no limit (three arguments, a fourth without a value, or more than four) the result is one `replaceAll` of the subject, and its failure is the call's failure |
| ReplaceProperties.BoundedPath | src/main/java/com/api/jsonata4java/expressions/functions/ReplaceFunction.java:147-153 | with a non-negative limit n the result is n successive `replaceFirst` rewrites of the subject, and a failing rewrite is the call's failure |
| ReplaceProperties.LimitZeroIsIdentity | src/main/java/com/api/jsonata4java/expressions/functions/ReplaceFunction.java:149-153 | a limit of 0 returns the subject unchanged, for every engine, including one that would reject the pattern |
| ReplaceProperties.NoMatchLeavesSubject | src/main/java/com/api/jsonata4java/expressions/functions/ReplaceFunction.java:143-153 | when every check passes and the engine leaves the subject unchanged, the result is the subject, on both paths and for every limit |
| ReplaceProperties.OutcomeIsClassified | src/main/java/com/api/jsonata4java/expressions/functions/ReplaceFunction.java:102-168 | every error is one of the first four argument errors or an engine failure; the engine is reached (a string or an engine failure) if and only if subject, pattern and replacement pass and the limit, if read, is absent or a non-negative number |
| ReplaceProperties.IterateCompose | src/main/java/com/api/jsonata4java/expressions/functions/ReplaceFunction.java:150-152 | a + b rewrites equal a rewrites followed by b more on their result; a failure among the first a is the result |
| ReplaceProperties.IterateStabilises | src/main/java/com/api/jsonata4java/expressions/functions/ReplaceFunction.java:150-152 | once a rewrite finds nothing left to change, every larger limit gives the same string, so the loop in effect stops early when fewer than `limit` matches exist |
| ReplaceProperties.IterateRescans | src/main/java/com/api/jsonata4java/expressions/functions/ReplaceFunction.java:150-152 | each rewrite works on the already-rewritten string: k + 1 rewrites of s equal k rewrites of `replaceFirst(s)`, or fail if that first call fails |

## Left out

- Regex matching and Java's replacement-string syntax (`String.replaceAll` and `String.replaceFirst`, java.util.regex): these are foreign library code. They are the `Rewriter` parameters. Which patterns and replacements Java rejects is left to those parameters. All exceptions are one outcome, `EngineFailure`, without their Java exception classes.
- The JSONata template rules in the doc comment (`$$`, `$0`, `$N` past the last group gives the empty string) and the callback replacement with match records: the code implements neither.
- The claim that unlimited replacement equals a large enough bounded one: this depends on how the regex engine matches, which is not modelled.
- Argument fetching (`FunctionUtils.useContextVariable`, `getContextVariable`, `getValuesListExpression`, `getArgumentCount`): this is evaluator plumbing. Its results are the fields of `Call`. `FunctionUtils` is not part of this model. The source evaluates each argument expression only when it reaches it (lines 105, 111, 120, 129), left to right. The model takes every value up front. So an error or side effect from evaluating an argument is not represented. For example, in `$replace("a", <an expression that raises>, "x")` the source raises that expression's error.
- ReplaceFunction.ValueAt: reading the subject past the written arguments is modelled as "no value". That read happens only with zero written arguments and no context, and the evaluator's actual answer there is not part of this model.
- ReplaceFunction.ReadLimit: `asInt` truncation of non-integral or out-of-range numbers is not modelled, because floating point is out of scope. A number is its integer value.
- Java `int` overflow of the argument count and the loop counter: counts are at most a handful, and the limit is a non-negative `int`.
- Jackson node construction, the error message texts and the unused `ERR_BAD_CONTEXT` constant: errors are modelled as `ErrorKind` variants.
- `getSignature`: its string feeds `useContextVariable` (line 95), whose answer is the free `useContext` field of `Call`. `invoke` does not enforce the types it lists.
