# oasis core in Dafny

This project models the core of **oasis**, a small prototype-based scripting
language whose interpreter is written in Kotlin/Native. It covers:

- the recursive-descent parser, which turns a token sequence into a tree;
- the tree-walking interpreter: expressions, statements, environments,
  prototypes and user functions;
- the native-function wrappers;
- the standard library the interpreter boots with
  (`src/nativeMain/kotlin/StandardLibrary.kt`, which `Interpreter.kt` calls at
  start-up): `io`, `time`, `list` and `sys`, plus the `string` helper object,
  which it builds but does not bind;
- library helpers that this boot does not register:
  - `range`, `createRange` and `rangeFun` from `standardLibrary/RangeAndMap.kt`,
    which no `generateLib` binds;
  - the `type.bytes` native from `standardLibrary/StandardLibrary.kt`, whose
    `generateLib` the interpreter never calls.

The modules follow the Kotlin files:

| module | models |
|---|---|
| `Common` | `Option` |
| `Syntax` | tokens, `Expr` and `Stmt` (`AbstractSyntaxTree.kt`) |
| `Parser` | `Parser.kt`, as functions over a token sequence and a position. Each returns `Ok(value, next)` or `Err(line, complaint)`. |
| `SuffixChains` | the `:` suffix loop of `Parser.kt`, characterised as a run of steps |
| `Values` | runtime values and the store |
| `Environment` | variable scopes |
| `Prototypes` | `OasisPrototype.kt` |
| `Natives` | `KotlinFunction.kt` and the list and string helpers |
| `Interpreter` | `Interpreter.kt` and `OasisFunction.kt` |
| `StandardLibrary` | `generateLib` |
| `RangeAndMap` | `standardLibrary/RangeAndMap.kt` |
| `TypeBytes` | the `type.bytes` native |
| `Numbers` | Kotlin's `Double.toInt()`, `Int.toByte()` and integer-to-text |
| `Utf16` | Kotlin's UTF-16 text: code units, surrogate pairs and the decoding |
| `InterpreterFacts`, `ParserFacts`, `ParsedPrograms` | properties that relate several operations |

## How the model works

**The store.** The Kotlin program's mutable, aliased objects live in an
immutable `Store`. It has four sequences:

- environments (`Scope`: bindings plus an optional enclosing scope);
- prototypes (`Object`: slots, an optional parent, a line);
- `ArrayList`s;
- closures (`OasisFunction`: parameters, body, captured scope).

A value refers to an object by its index. Every operation returns a new
store that extends the old one (`Grows`). `ValidStore` says every index
points inside the store.

**Evaluation results.**

- `Eval` returns an `Outcome`: either a value and a store, `Raise(error)`,
  or `OutOfFuel`.
- `Exec` returns a `Completion`: `Normal`, `Returned`, `Failed` or
  `Exhausted`.
- Kotlin's `Return` exception is the `Returned` completion, which the call
  catches.
- `RuntimeError(line, message)` keeps the program's messages.
- Kotlin's `ClassCastException` and `IndexOutOfBoundsException` become
  `CastFailure` and `IndexFailure`.

**Fuel.** A `fuel` budget bounds the nesting of calls and loop iterations,
so every function terminates. Running out of fuel is reported as
`OutOfFuel`/`Exhausted` and is never confused with a result.

**Host.** Everything outside the core is a parameter, the `Host`:

- the global `base` prototype;
- the current calendar time;
- the answers of the console and file natives;
- the text Kotlin's `toString` gives a `Double`, a list or an object.

**Dialect.** The `Host` also carries a `Dialect`:

- `AsWritten` follows the code;
- `Intended` follows the evident intent where the code has a defect (see
  "## Findings").

Every property that does not mention the dialect holds for both.

## Where the documentation and the code differ

The model follows the code in each case:

- **Arity.** The documentation promises an arity-mismatch error. No call
  checks arity:
  - missing arguments fail with an index error when a parameter is bound;
  - extra arguments are ignored.
- **`*`.** The documentation says `-`, `*` and `/` all behave like `+`.
  In the code, `*` multiplies, `-` adds and `/` multiplies.
- **Truthiness.** The documentation says number zero is falsy. The code
  compares with the boxed `Int` 0, so the `Double` 0.0 that every numeric
  literal produces is truthy.
- **Blocks.** The documentation describes one environment per block. `if`
  and `while` bodies open no environment; only a function call does.
- **Globals.** The documentation's list of globals includes `string` and
  `type`. The root `generateLib` defines only `io`, `time`, `list` and
  `sys`: the `string` helper object is built but never bound.
- **Associativity.** Binary operators group to the right (`a - b - c` is
  `a - (b - c)`) and have no precedence. The documentation calls this
  deliberate, so the model keeps it and it is not listed as a finding.

## Model

| member | source | states |
|---|---|---|
| Parser.Eat | src/nativeMain/kotlin/Parser.kt:18-25 | succeeds exactly when the current token has the expected kind; it then yields that token and advances by one, and otherwise fails at that token's line |
| Parser.Parse | src/nativeMain/kotlin/Parser.kt:212-218 | a successful parse is one statement list that stops on the `Eof` token, and its statements are exactly what `statement` parses one after another from the first token (`StatementRun`) |
| Parser.Statements | src/nativeMain/kotlin/Parser.kt:213-216 | statements are collected in source order after the ones already read; parsing stops on a stop token, and an immediate stop token yields nothing new |
| Parser.StatementsAreRun | src/nativeMain/kotlin/Parser.kt:213-216 | what the statement loop appends is a run of `statement` results, each starting before a stop token |
| Parser.Statement | src/nativeMain/kotlin/Parser.kt:155-170 | every statement consumes at least one token and carries the line of the last token it consumed |
| Parser.LetDecl | src/nativeMain/kotlin/Parser.kt:204-210 | a `let` statement binds an identifier token |
| Parser.IfDecl | src/nativeMain/kotlin/Parser.kt:172-191 | an `if` consumes input and yields an `IfStmt` |
| Parser.IfTail | src/nativeMain/kotlin/Parser.kt:180-190 | the else body exists exactly when the then-statements stopped at `else`; the condition and the then body are kept unchanged |
| Parser.WhileDecl | src/nativeMain/kotlin/Parser.kt:193-202 | a `while` yields a loop whose body is a statement list |
| Parser.Expression | src/nativeMain/kotlin/Parser.kt:62-153 | an expression consumes at least one token, never the `Eof`, and carries the line of the last token consumed |
| Parser.Primary | src/nativeMain/kotlin/Parser.kt:64-105 | a token that starts no expression is reported as "Invalid expression" at its own line |
| Parser.FnDef | src/nativeMain/kotlin/Parser.kt:27-45 | a function literal has identifier parameters and a statement-list body |
| Parser.Params | src/nativeMain/kotlin/Parser.kt:30-37 | the parameter list contains only identifiers |
| Parser.ParamsRest | src/nativeMain/kotlin/Parser.kt:33-36 | comma-separated parameters end at `)` and are all identifiers |
| Parser.ProtoLit | src/nativeMain/kotlin/Parser.kt:47-60 | a prototype literal's body holds only `let`s, and it has a base exactly when `>` follows `proto` |
| Parser.ProtoBase | src/nativeMain/kotlin/Parser.kt:49-53 | a base name is present exactly after `>` and is an identifier |
| Parser.LetBlock | src/nativeMain/kotlin/Parser.kt:54-57 | a prototype body is a run of `let`s ending at `end` |
| Parser.Arguments | src/nativeMain/kotlin/Parser.kt:138-149 | an argument list ends at its closing token |
| Parser.ArgumentsRest | src/nativeMain/kotlin/Parser.kt:143-146 | later arguments are appended after earlier ones, ending at the closing token |
| Parser.Postfix | src/nativeMain/kotlin/Parser.kt:107-127 | the result is the operand wrapped in a chain of property/index suffixes; a missing `:` leaves it unchanged, and no `:` is left unread |
| Parser.Suffix | src/nativeMain/kotlin/Parser.kt:117-126 | one `:` step reads past the `:` and wraps the operand at most once: in a property of it, in an index of it, or not at all |
| Parser.CloseIndex | src/nativeMain/kotlin/Parser.kt:121-125 | an index whose expression fails gives that error; otherwise it succeeds exactly when `)` follows, with the `Indexer` and the position after the `)`, and fails with a complaint about the token found there |
| SuffixChains.PostfixIsRun | src/nativeMain/kotlin/Parser.kt:107-126 | what the suffix loop returns is a run of `:NAME`, `:(expr)` and bare `:` steps from the operand |
| SuffixChains.RunIsPostfix | src/nativeMain/kotlin/Parser.kt:107-126 | every such run that stops at a token other than `:` is what the suffix loop returns |
| SuffixChains.PostfixInOrder | src/nativeMain/kotlin/Parser.kt:107-126 | the loop returns `r` at `next` exactly when `r` is a run of the steps from the operand and `next` holds no `:` |
| SuffixChains.PostfixFailsAtIndex | src/nativeMain/kotlin/Parser.kt:112-115 | when the loop fails, it has read a run of steps up to a `:(` whose expression fails or lacks its `)`, and that is its error |
| SuffixChains.IndexFailureIsPostfix | src/nativeMain/kotlin/Parser.kt:112-115 | a run of steps up to such a failing `:(` makes the loop report that error |
| SuffixChains.PostfixFailsInOrder | src/nativeMain/kotlin/Parser.kt:107-126 | the loop fails with `err` exactly when a run of steps reaches a `:(` whose expression fails with `err`, or whose `)` is missing and `err` names the token found instead |
| SuffixChains.RunStep | src/nativeMain/kotlin/Parser.kt:117-126 | a step read by one loop iteration followed by a run is a run |
| SuffixChains.RunUnfold | src/nativeMain/kotlin/Parser.kt:117-126 | a run that does not stop at once starts with the step one loop iteration reads |
| SuffixChains.SuffixFailure | src/nativeMain/kotlin/Parser.kt:121-125 | one loop iteration fails exactly at a `:(` whose index fails |
| Parser.AssignTail | src/nativeMain/kotlin/Parser.kt:129-132 | without `=` the operand is unchanged; with `=` the whole remaining expression is assigned to whatever target was parsed |
| Parser.Operators | src/nativeMain/kotlin/Parser.kt:133-137 | the operand is wrapped in a chain of binary operations; parsing stops only at a non-operator, and with no operator the operand is unchanged |
| Parser.CallTail | src/nativeMain/kotlin/Parser.kt:138-150 | without `(` the operand is unchanged; with `(` the operand becomes the callee |
| ParserFacts.NameExpression | src/nativeMain/kotlin/Parser.kt:64-65 | an identifier followed by a closing token is a variable read with the identifier's line |
| ParserFacts.NumberExpression | src/nativeMain/kotlin/Parser.kt:68-69 | a number followed by a closing token is a literal of its value |
| ParserFacts.OperatorTail | src/nativeMain/kotlin/Parser.kt:133-136 | `b op c` parses as one binary operation carrying `c`'s line |
| ParserFacts.OperatorsGroupRight | src/nativeMain/kotlin/Parser.kt:133-136 | `a op b op c` groups as `a op (b op c)` |
| ParserFacts.SubtractionsRight | src/nativeMain/kotlin/Parser.kt:133-136 | `y - z` on numbers parses as a single subtraction |
| ParserFacts.SubtractionsGroupRight | src/nativeMain/kotlin/Parser.kt:133-136 | `x - y - z` parses as `x - (y - z)` |
| ParserFacts.SuffixesLeftToRight | src/nativeMain/kotlin/Parser.kt:107-126 | `a:b:(c)` applies the property first and then the index |
| ParserFacts.DoubleColonSkipped | src/nativeMain/kotlin/Parser.kt:117-126 | in `a::b` the first `:` with nothing after it is skipped silently |
| ParserFacts.TrailingColonSkipped | src/nativeMain/kotlin/Parser.kt:107-115 | a trailing `:` is consumed without adding a suffix |
| ParserFacts.AssignmentTakesWholeExpression | src/nativeMain/kotlin/Parser.kt:129-132 | `a = b op c` assigns the whole `b op c` to `a` |
| ParserFacts.LiteralTargetParses | src/nativeMain/kotlin/Parser.kt:129-132 | `1 = 2` is accepted by the parser as an assignment to a literal |
| ParserFacts.LetOfNumber | src/nativeMain/kotlin/Parser.kt:204-210 | `let x = 5` parses as a `let` of that literal and consumes four tokens |
| ParserFacts.NameStatement | src/nativeMain/kotlin/Parser.kt:165-168 | a lone identifier is an expression statement |
| ParserFacts.TwoStatements | src/nativeMain/kotlin/Parser.kt:212-217 | two statements followed by `Eof` parse as a list of both, in order |
| ParserFacts.ParseKeepsOrder | src/nativeMain/kotlin/Parser.kt:212-217 | `let x = 1 y` parses as the `let` followed by the expression statement |
| ParserFacts.InvalidExpressionReported | src/nativeMain/kotlin/Parser.kt:101-105 | any token outside the eleven that start an expression is an "Invalid expression" error at that token's line |
| ParserFacts.AssignTailTakesExpression | src/nativeMain/kotlin/Parser.kt:129-132 | the right-hand side of `=` is exactly the expression parsed after it, and its error is the assignment's error |
| ParserFacts.OperatorTakesRestOfExpression | src/nativeMain/kotlin/Parser.kt:133-136 | after an operator, the right operand is the whole expression that follows; an error there is the operation's error |
| ParserFacts.CallTailTakesArguments | src/nativeMain/kotlin/Parser.kt:138-150 | a call's arguments are exactly the argument list parsed after `(`, and the call ends after the closing `)` |
| ParserFacts.RunIsStatements | src/nativeMain/kotlin/Parser.kt:213-216 | conversely, a run of statements ending at a stop token is exactly what the statement loop returns |
| ParserFacts.ParseIsRun | src/nativeMain/kotlin/Parser.kt:212-218 | a program parses to a statement list exactly when its statements form a run ending at `Eof` |
| ParserFacts.ArgumentsRestIsRun | src/nativeMain/kotlin/Parser.kt:143-146 | what the argument loop appends is a run of `, expression` items, each the expression parsed right after its comma |
| ParserFacts.RunIsArgumentsRest | src/nativeMain/kotlin/Parser.kt:143-146 | conversely, such a run that reaches the closing token is exactly what the argument loop appends |
| ParserFacts.ArgumentsAreList | src/nativeMain/kotlin/Parser.kt:138-149 | a parsed argument list is empty at the closing token, or the expression at its start followed by a run of `, expression` items |
| ParserFacts.ListIsArguments | src/nativeMain/kotlin/Parser.kt:138-149 | a first expression and a run of `, expression` items that reaches the closing token is exactly the argument list parsed |
| ParserFacts.ArgumentsIsList | src/nativeMain/kotlin/Parser.kt:138-149 | an argument list parses to `args` exactly when `args` are the comma-separated expressions parsed in order up to the closing token |
| ParserFacts.NameRunPositions | src/nativeMain/kotlin/Parser.kt:33-36 | in a run of `, NAME` pairs the k-th name is the token 2k+1 places on, and the run ends two tokens per name later |
| ParserFacts.ParamsRestIsRun | src/nativeMain/kotlin/Parser.kt:33-36 | the parameter loop keeps the names already read and appends a run of `, NAME` pairs |
| ParserFacts.RunIsParamsRest | src/nativeMain/kotlin/Parser.kt:33-36 | conversely, a run of `, NAME` pairs that reaches `)` is exactly what the parameter loop appends |
| ParserFacts.ParamsAreLayout | src/nativeMain/kotlin/Parser.kt:30-37 | parsed parameters are empty when no name follows `(`, and otherwise the first name followed by a run of `, NAME` pairs |
| ParserFacts.LayoutIsParams | src/nativeMain/kotlin/Parser.kt:30-37 | that layout, ending at `)` when it holds a name, is exactly what the parameter list parses to |
| ParserFacts.LayoutPositions | src/nativeMain/kotlin/Parser.kt:30-37 | the k-th parameter is the token 2k places after the first, and the list of n names ends 2n-1 tokens after it |
| ParserFacts.ParamsInOrder | src/nativeMain/kotlin/Parser.kt:30-37 | the parameters parse to `ps` exactly when `ps` has that layout; the names are then in source order at every other token |
| ParserFacts.LetBlockIsRun | src/nativeMain/kotlin/Parser.kt:54-57 | the prototype-body loop keeps the `let`s already read and appends a run of `let` declarations |
| ParserFacts.RunIsLetBlock | src/nativeMain/kotlin/Parser.kt:54-57 | conversely, a run of `let` declarations that reaches `end` is exactly what the prototype-body loop appends |
| ParserFacts.LetBlockInOrder | src/nativeMain/kotlin/Parser.kt:54-57 | a prototype body parses to `lets` exactly when they are successive `let` declarations ending at `end` |
| ParserFacts.LetDeclTakesExpression | src/nativeMain/kotlin/Parser.kt:204-210 | a `let` fails at the first wrong token among `let`, the name and `=`; otherwise it binds the name token to the expression parsed after `=`, whose error is the declaration's error |
| ParserFacts.IfDeclParts | src/nativeMain/kotlin/Parser.kt:172-191 | the condition is the expression after `if` and the then-body is the run of statements up to `else` or `end`; an error in either is the `if`'s error |
| ParserFacts.IfTailElseParts | src/nativeMain/kotlin/Parser.kt:180-190 | after `else` the else-body is the run of statements up to `end`, and the `if` ends after that `end` |
| ParserFacts.WhileDeclParts | src/nativeMain/kotlin/Parser.kt:193-202 | the condition is the expression after `while` and the body is the run of statements up to `end`; an error in either is the loop's error |
| ParserFacts.FnDefHead | src/nativeMain/kotlin/Parser.kt:27-38 | a function literal fails at a missing `(`, with the parameter list's error, or at a missing `)` after the parameters |
| ParserFacts.FnDefParts | src/nativeMain/kotlin/Parser.kt:27-45 | after `(params)` the parameters are those the parameter list parsed, the body is the run of statements up to `end`, and the literal ends after that `end` |
| ParsedPrograms.SubtractionChainValue | src/nativeMain/kotlin/Parser.kt:133-136 | the parsed `x - y - z` evaluates to `x + (y + z)` as written and to `x - (y - z)` in the intended reading |
| ParsedPrograms.SubtractionTreeValue | src/nativeMain/kotlin/Interpreter.kt:83-89 | the tree `x - (y - z)` of literals gives `x + (y + z)` as written and `x - (y - z)` as intended |
| ParsedPrograms.SubtractNumbers | src/nativeMain/kotlin/Interpreter.kt:83-89 | subtracting two numbers adds them as written and subtracts them as intended |
| ParsedPrograms.LiteralTargetFailsWhenEvaluated | src/nativeMain/kotlin/Interpreter.kt:46-48 | `1 = 2` parses, but running it fails with "Cannot assign" |
| Environment.Chain | src/nativeMain/kotlin/OasisFunction.kt:3 | the enclosing-scope chain starts at the current scope, strictly descends through parent links, and ends at a scope without a parent |
| Environment.Resolve | src/nativeMain/kotlin/Interpreter.kt:144-146 | a name resolves to a scope on the chain that binds it |
| Environment.Get | src/nativeMain/kotlin/Interpreter.kt:144-146 | a read succeeds exactly when some enclosing scope binds the name; otherwise it is an undefined-variable error naming it |
| Environment.Define | src/nativeMain/kotlin/Interpreter.kt:156-158 | `let` binds or rebinds in the current scope only, leaving every other scope untouched |
| Environment.Assign | src/nativeMain/kotlin/Interpreter.kt:44 | assignment updates the innermost scope that binds the name and fails when none does |
| Environment.ResolveFindsIffBound | src/nativeMain/kotlin/Interpreter.kt:144-146 | a name resolves exactly when some scope on the chain binds it |
| Environment.ResolveFindsFirst | src/nativeMain/kotlin/Interpreter.kt:144-146 | resolution finds the innermost binding: no scope nearer than the one found binds the name |
| Environment.ResolveFrame | src/nativeMain/kotlin/Interpreter.kt:144-146 | resolution depends only on parent links and on which names are bound |
| Environment.DefineThenGet | src/nativeMain/kotlin/Interpreter.kt:156-158 | after `let x = v`, reading `x` in that scope gives `v` |
| Environment.DefineOtherName | src/nativeMain/kotlin/Interpreter.kt:156-158 | defining one name does not change what any other name reads from any scope |
| Environment.AssignThenGet | src/nativeMain/kotlin/Interpreter.kt:44 | after a successful assignment, reading the name gives the assigned value |
| Environment.AssignFailsIffGetFails | src/nativeMain/kotlin/Interpreter.kt:44 | assignment fails exactly when reading the name fails, and with the same error |
| Numbers.Trunc | src/nativeMain/kotlin/standardLibrary/RangeAndMap.kt:12 | truncation toward zero: the result is the integer part, within one of the input, on the input's side of zero |
| Numbers.ToInt | src/nativeMain/kotlin/standardLibrary/RangeAndMap.kt:12 | `Double.toInt()` truncates and saturates at the 32-bit bounds |
| Numbers.ToByte | src/nativeMain/kotlin/standardLibrary/StandardLibrary.kt:69-70 | `toByte()` keeps the value modulo 256 and is the identity on bytes |
| Numbers.TruncMonotone | src/nativeMain/kotlin/standardLibrary/RangeAndMap.kt:12 | truncation preserves order |
| Numbers.ToIntMonotone | src/nativeMain/kotlin/standardLibrary/RangeAndMap.kt:19 | saturating conversion preserves order |
| Numbers.ToBytePeriodic | src/nativeMain/kotlin/standardLibrary/StandardLibrary.kt:69-70 | byte conversion has period 256 |
| Numbers.DecimalText | src/nativeMain/kotlin/Interpreter.kt:79 | an integer renders as its decimal digits, with no leading zero and a `-` exactly for negatives; the digits denote the magnitude |
| Numbers.Digit | src/nativeMain/kotlin/Interpreter.kt:79 | the digit character for 0..9 is a decimal digit denoting that number |
| Numbers.LeadingDigitPositive | src/nativeMain/kotlin/Interpreter.kt:79 | a digit string without a leading zero denotes a positive number |
| Numbers.DecimalTextOfDigits | src/nativeMain/kotlin/Interpreter.kt:79 | every digit string without a leading zero is the decimal text of the number it denotes, so the rendering is unique |
| Prototypes.Set | src/nativeMain/kotlin/OasisPrototype.kt:17-19 | setting a slot changes only that slot of that object |
| Prototypes.Get | src/nativeMain/kotlin/OasisPrototype.kt:5-15 | a lookup succeeds exactly when the object or its direct parent holds the slot; the own slot wins, and a miss is "Prototype does not contain key" at the object's line |
| Prototypes.SetThenGet | src/nativeMain/kotlin/OasisPrototype.kt:17-19 | a slot reads back the value just set |
| Prototypes.SetOtherName | src/nativeMain/kotlin/OasisPrototype.kt:17-19 | setting one slot leaves every other name's lookup on every object as it was |
| Prototypes.OwnSlotShadowsParent | src/nativeMain/kotlin/OasisPrototype.kt:6-10 | an own slot hides the parent's slot of the same name |
| Prototypes.GrandparentNotConsulted | src/nativeMain/kotlin/OasisPrototype.kt:11-14 | lookup looks only one level up: a slot held only by a grandparent is an error |
| Prototypes.OwnMethodBindsThis | src/nativeMain/kotlin/OasisPrototype.kt:8-9 | reading an own function slot defines `this` as the object in the function's captured scope |
| Prototypes.InheritedMethodUnbound | src/nativeMain/kotlin/OasisPrototype.kt:11-12 | reading an inherited slot returns it without binding `this` and without changing the store |
| Natives.Arity | src/nativeMain/kotlin/StandardLibrary.kt:12-41 | every registered native uses a wrapper of arity at most 3 |
| Natives.Positional | src/nativeMain/kotlin/KotlinFunction.kt:1-39 | a wrapper of arity N reads the first N arguments; fewer is an index error, and more are never read |
| Natives.ExtraArgumentsIgnored | src/nativeMain/kotlin/KotlinFunction.kt:11-29 | extra arguments change nothing a wrapper passes on |
| Natives.NullaryIgnoresArguments | src/nativeMain/kotlin/KotlinFunction.kt:1-4 | a nullary wrapper accepts any arguments |
| Natives.ListAdd | src/nativeMain/kotlin/StandardLibrary.kt:38 | `list.add` appends to that list only and gives unit; a non-list is a cast error |
| Natives.ListSize | src/nativeMain/kotlin/StandardLibrary.kt:39 | `list.size` is the length as a number and changes nothing |
| Natives.IndexOf | src/nativeMain/kotlin/StandardLibrary.kt:40 | the position found is the first occurrence of the element |
| Natives.RemoveFirst | src/nativeMain/kotlin/StandardLibrary.kt:40 | `remove(element)` drops exactly the first occurrence of the element, keeping the others in order, and changes nothing when the element is absent |
| Natives.ListRemove | src/nativeMain/kotlin/StandardLibrary.kt:40 | `list.remove` returns the element at the truncated index and fails outside the list; as written it then removes by value, and as intended it removes that position |
| Natives.StringSize | src/nativeMain/kotlin/StandardLibrary.kt:41 | `string.size` is the number of UTF-16 code units of the text, which equals its number of characters exactly when every character is in the Basic Multilingual Plane; any other value is a cast error |
| Natives.TimeNow | src/nativeMain/kotlin/StandardLibrary.kt:23-37 | `time.now` makes a new object under `base` holding year (+1900), month, day, hour, minute and second as integers |
| Natives.HostCall | src/nativeMain/kotlin/StandardLibrary.kt:18-22 | console and file natives succeed exactly when the host answers, and never change the store |
| Natives.CallNative | src/nativeMain/kotlin/KotlinFunction.kt:1-39 | any native called with fewer arguments than its wrapper's arity is an index error |
| Natives.CallNativeIgnoresExtra | src/nativeMain/kotlin/KotlinFunction.kt:1-39 | calling a native with extra arguments is the same as calling it without them |
| Natives.AddThenSize | src/nativeMain/kotlin/StandardLibrary.kt:38-39 | after `add`, `size` is one larger and the new element is last |
| Natives.RemoveAsWrittenKeepsElement | src/nativeMain/kotlin/StandardLibrary.kt:40 | on `[5, 6, 7]`, `remove(1)` returns 6 and leaves the list unchanged |
| Natives.RemoveIntendedTakesElement | src/nativeMain/kotlin/StandardLibrary.kt:40 | intended `remove(i)` returns element i and leaves the list without exactly that position |
| Interpreter.Equals | src/nativeMain/kotlin/Interpreter.kt:104-123 | `==` is identity except for lists, which compare element-wise; a true result between non-lists means identical values |
| Interpreter.SameElements | src/nativeMain/kotlin/Interpreter.kt:104-106 | lists of different lengths differ; identical lists are equal |
| Interpreter.ArithmeticAsWritten | src/nativeMain/kotlin/Interpreter.kt:83-103 | as written, `-` adds and `/` multiplies, and no operation fails |
| Interpreter.Arithmetic | src/nativeMain/kotlin/Interpreter.kt:83-103 | intended `-` and `/` undo `+` and `*`; only division by zero fails |
| Interpreter.AsParent | src/nativeMain/kotlin/Interpreter.kt:149 | a prototype's base must be nil or a prototype; anything else is a cast error |
| Interpreter.Eval | src/nativeMain/kotlin/Interpreter.kt:36-203 | evaluation keeps the store closed and only ever extends it |
| Interpreter.EvalEach | src/nativeMain/kotlin/Interpreter.kt:197-203 | evaluating a sequence yields one value per expression |
| Interpreter.EvalAssignment | src/nativeMain/kotlin/Interpreter.kt:40-51 | assignment keeps the store closed and extends it |
| Interpreter.AssignTo | src/nativeMain/kotlin/Interpreter.kt:42-49 | a successful assignment yields the assigned value; a target other than a variable, property or index fails with "Cannot assign" |
| Interpreter.EvalCall | src/nativeMain/kotlin/Interpreter.kt:61-69 | calls keep the store closed and extend it |
| Interpreter.EvalBinOp | src/nativeMain/kotlin/Interpreter.kt:71-73 | binary operations keep the store closed and extend it |
| Interpreter.EvalProto | src/nativeMain/kotlin/Interpreter.kt:148-154 | a prototype literal yields a newly allocated object |
| Interpreter.FillSlots | src/nativeMain/kotlin/Interpreter.kt:150-152 | filling slots yields the object being filled |
| Interpreter.EvalIndexer | src/nativeMain/kotlin/Interpreter.kt:188-195 | indexing keeps the store closed and extends it |
| Interpreter.Binary | src/nativeMain/kotlin/Interpreter.kt:74-137 | every operator keeps the store closed and extends it |
| Interpreter.ArithmeticOn | src/nativeMain/kotlin/Interpreter.kt:83-103 | arithmetic keeps the store closed and extends it |
| Interpreter.NumberResult | src/nativeMain/kotlin/Interpreter.kt:86 | a numeric operation yields a number without touching the store; a non-number right operand is a cast error |
| Interpreter.Comparison | src/nativeMain/kotlin/Interpreter.kt:124-135 | comparisons succeed exactly on two numbers and otherwise fail with a cast error; `<`, `>`, `>=` and `<=` each agree with the order on the reals |
| Interpreter.Overload | src/nativeMain/kotlin/Interpreter.kt:77 | an operator on a prototype without the overload slot fails with the lookup's "does not contain key" error |
| Interpreter.CallValue | src/nativeMain/kotlin/Interpreter.kt:67-68 | only user functions and natives can be called; anything else is a cast error |
| Interpreter.Call | src/nativeMain/kotlin/OasisFunction.kt:2-13 | a call with fewer arguments than parameters fails with an index error |
| Interpreter.Activation | src/nativeMain/kotlin/OasisFunction.kt:3-6 | a call opens one new scope whose parent is the captured scope and which binds exactly the parameter names |
| Interpreter.RunBody | src/nativeMain/kotlin/OasisFunction.kt:7-12 | a binding failure is passed on unchanged |
| Interpreter.Bind | src/nativeMain/kotlin/OasisFunction.kt:4-6 | binding succeeds exactly when there are enough arguments; the last binding of a repeated parameter wins, and other names and scopes are untouched |
| Interpreter.BindVarsKeys | src/nativeMain/kotlin/OasisFunction.kt:4-6 | binding adds exactly the parameter names |
| Interpreter.BindVarsLastWins | src/nativeMain/kotlin/OasisFunction.kt:4-6 | a parameter bound last keeps its argument |
| Interpreter.BindVarsKeepsOthers | src/nativeMain/kotlin/OasisFunction.kt:4-6 | names that are not parameters keep their values |
| Interpreter.Exec | src/nativeMain/kotlin/Interpreter.kt:156-186 | statements keep the store closed and extend it |
| Interpreter.Loop | src/nativeMain/kotlin/Interpreter.kt:168-172 | loops keep the store closed and extend it |
| Interpreter.ExecAll | src/nativeMain/kotlin/Interpreter.kt:174-178 | blocks keep the store closed and extend it |
| InterpreterFacts.EqualsSymmetric | src/nativeMain/kotlin/Interpreter.kt:104-113 | `a == b` and `b == a` agree |
| InterpreterFacts.SameElementsSymmetric | src/nativeMain/kotlin/Interpreter.kt:104-106 | element-wise list comparison is symmetric |
| InterpreterFacts.SameElementsElementwise | src/nativeMain/kotlin/Interpreter.kt:104-106 | lists compare equal exactly when they have the same size and pairwise equal elements |
| InterpreterFacts.EqualsElementwise | src/nativeMain/kotlin/Interpreter.kt:104-106 | `==` on two lists is true exactly when they have the same size and pairwise equal elements; it needs budget for that |
| InterpreterFacts.NotEqualNegatesEqual | src/nativeMain/kotlin/Interpreter.kt:104-123 | `!=` is the negation of `==`; nil equals only nil, and a boxed `Int` never equals a `Double` |
| InterpreterFacts.PlusDispatch | src/nativeMain/kotlin/Interpreter.kt:75-81 | `+` adds numbers, appends text, calls `__plus` on a prototype, and otherwise fails with "Cannot add" |
| InterpreterFacts.MinusAndSlashAsWritten | src/nativeMain/kotlin/Interpreter.kt:83-103 | as written, `a - b` is `a + b` and `a / b` is `a * b` |
| InterpreterFacts.SubtractionDoesNotUndoAdditionAsWritten | src/nativeMain/kotlin/Interpreter.kt:83-89 | as written, `(2 + 3) - 3` is 8, not 2 |
| InterpreterFacts.ArithmeticInverses | src/nativeMain/kotlin/Interpreter.kt:83-103 | intended: `(a + b) - b == a`, `(a * b) / b == a` for non-zero `b`, and division by zero fails |
| InterpreterFacts.ZeroConditionAsWritten | src/nativeMain/kotlin/Interpreter.kt:32-34 | as written, `if 0` takes the then branch, since only the boxed `Int` 0 is falsy |
| InterpreterFacts.ZeroConditionIntended | src/nativeMain/kotlin/Interpreter.kt:32-34 | intended: `if 0` takes the else branch, and exactly nil, false and the zeros are falsy |
| InterpreterFacts.OperandsLeftToRight | src/nativeMain/kotlin/Interpreter.kt:71-73 | both operands are evaluated left first, before the operator is examined; errors propagate in that order |
| InterpreterFacts.CalleeCheckedAfterArguments | src/nativeMain/kotlin/Interpreter.kt:61-69 | a non-callable callee is reported only after every argument was evaluated |
| InterpreterFacts.IndexTargetCheckedFirst | src/nativeMain/kotlin/Interpreter.kt:188-194 | an unindexable target fails with "Cannot index" before the index is evaluated |
| InterpreterFacts.TextIndexing | src/nativeMain/kotlin/Interpreter.kt:191 | indexing a text gives the character at the truncated index, or an index error |
| InterpreterFacts.ListIndexing | src/nativeMain/kotlin/Interpreter.kt:188-195 | indexing a list gives the element at the truncated index; a non-number index is a cast error and an index outside the list an index error |
| InterpreterFacts.GroupIsTransparent | src/nativeMain/kotlin/Interpreter.kt:140-142 | a parenthesised expression evaluates as the expression inside it |
| InterpreterFacts.PropertyReadsSlot | src/nativeMain/kotlin/Interpreter.kt:53-55 | `obj:name` succeeds exactly when the prototype or its parent holds the slot; an own slot wins, and a non-prototype is a cast error |
| InterpreterFacts.FuncCapturesScope | src/nativeMain/kotlin/Interpreter.kt:57-59 | a function literal is a new closure over the current scope; calling it opens a scope whose parent is that scope and which binds the parameter names |
| InterpreterFacts.AssignmentRhsFirst | src/nativeMain/kotlin/Interpreter.kt:40-51 | the right-hand side is evaluated before the target is checked; the assignment's value is that of the right-hand side |
| InterpreterFacts.PropertyAssignmentSets | src/nativeMain/kotlin/Interpreter.kt:43 | `obj:name = v` evaluates `v`, then `obj`; a non-prototype is a cast error, and a prototype gets slot `name` set to `v`, which a lookup then reads back; the assignment's value is `v` |
| InterpreterFacts.IndexAssignmentErrors | src/nativeMain/kotlin/Interpreter.kt:45 | assigning to `list:(i)` fails with a cast error for a non-list target, text included, or a non-number index, and with an index error outside the list |
| InterpreterFacts.IndexAssignmentReplaces | src/nativeMain/kotlin/Interpreter.kt:45 | a list element assignment within bounds replaces exactly that element and leaves scopes and prototypes as they were |
| InterpreterFacts.AssignedVariableReadsBack | src/nativeMain/kotlin/Interpreter.kt:44 | after `x = e`, reading `x` gives the assigned value |
| InterpreterFacts.AssignmentNeverDeclares | src/nativeMain/kotlin/Interpreter.kt:44 | assigning an unbound name is an undefined-variable error |
| InterpreterFacts.LetInIfBodyVisibleAfter | src/nativeMain/kotlin/Interpreter.kt:160-166 | a `let` inside an `if` body is still visible after the `if` |
| InterpreterFacts.LetInLoopBodyVisibleAfter | src/nativeMain/kotlin/Interpreter.kt:168-172 | a `let` inside a `while` body is still visible after the loop, in the same environment as the loop |
| InterpreterFacts.EndlessLoopExhausts | src/nativeMain/kotlin/Interpreter.kt:168-172 | `while true end` never finishes, whatever the budget |
| InterpreterFacts.FalsyLoopSkipsBody | src/nativeMain/kotlin/Interpreter.kt:168-172 | a loop with a falsy condition runs the condition once and never the body |
| InterpreterFacts.ExecAllSequence | src/nativeMain/kotlin/Interpreter.kt:174-178 | running `xs + ys` runs `xs`, then `ys` only if `xs` completed normally |
| InterpreterFacts.ExecNoReturn | src/nativeMain/kotlin/Interpreter.kt:180-182 | a statement with no `return` never completes by returning |
| InterpreterFacts.BindIgnoresExtra | src/nativeMain/kotlin/OasisFunction.kt:4-6 | arguments beyond the parameters are never bound |
| InterpreterFacts.CallIgnoresExtra | src/nativeMain/kotlin/OasisFunction.kt:4-6 | calling a user function with extra arguments is the same as calling it without them |
| InterpreterFacts.CallWithoutReturnGivesNil | src/nativeMain/kotlin/OasisFunction.kt:12 | a function whose body has no `return` gives nil whenever it completes |
| InterpreterFacts.ReturnGivesCallValue | src/nativeMain/kotlin/OasisFunction.kt:7-11 | a body `return x` makes the call's value the value of `x` in the parameter scope |
| InterpreterFacts.ReturnAfterStatementsGivesCallValue | src/nativeMain/kotlin/OasisFunction.kt:7-11 | when the statements before `return x` complete normally, the call gives the value of `x` in the store they leave, and the statements after the `return` never run |
| InterpreterFacts.ReturnAfterStatementsEndsBody | src/nativeMain/kotlin/OasisFunction.kt:7-11 | any statement that returns after normally completing statements ends the body with the returned value; later statements never run |
| InterpreterFacts.ReturnEscapesIf | src/nativeMain/kotlin/Interpreter.kt:160-166 | a `return` in the branch an `if` takes leaves the `if` with the same value and store |
| InterpreterFacts.ReturnEscapesLoop | src/nativeMain/kotlin/Interpreter.kt:168-172 | a `return` in a loop body run under a truthy condition ends the loop at once with that value and store |
| InterpreterFacts.ProtoLiteralLinks | src/nativeMain/kotlin/Interpreter.kt:148-149 | a prototype literal without a base inherits from `base` and keeps its line |
| InterpreterFacts.ProtoNamedBase | src/nativeMain/kotlin/Interpreter.kt:149 | a named base must be bound and be nil or a prototype, and becomes the parent |
| InterpreterFacts.ProtoSlotValue | src/nativeMain/kotlin/Interpreter.kt:150-152 | a slot holds the value of its initialiser, and an initialiser's error is the literal's error |
| InterpreterFacts.FillSlotsSequence | src/nativeMain/kotlin/Interpreter.kt:150-152 | filling the slots `xs + ys` fills `xs`, then `ys` in the store that leaves; an error in `xs` ends it |
| InterpreterFacts.RepeatedSlotKeepsLast | src/nativeMain/kotlin/Interpreter.kt:150-152 | when a literal sets the same slot twice, it succeeds exactly when the second initialiser does, and the slot holds the second value |
| InterpreterFacts.ListLiteralContents | src/nativeMain/kotlin/Interpreter.kt:197-203 | a list literal allocates one new list holding exactly its evaluated elements |
| InterpreterFacts.EvalEachLiterals | src/nativeMain/kotlin/Interpreter.kt:197-201 | literals evaluate to their constants, in order, without touching the store |
| StandardLibrary.GenerateLib | src/nativeMain/kotlin/StandardLibrary.kt:11-46 | `generateLib` gives `base` its `toString`, allocates the five namespace objects under `base`, and binds exactly four globals |
| StandardLibrary.Boot | src/nativeMain/kotlin/Interpreter.kt:3-8 | the interpreter starts with one global scope and six prototypes |
| StandardLibrary.BootGlobals | src/nativeMain/kotlin/StandardLibrary.kt:42-45 | the globals are exactly `io`, `time`, `list` and `sys`; `string` is not bound, though its object holds `size` |
| StandardLibrary.BootListHelpers | src/nativeMain/kotlin/StandardLibrary.kt:38-40 | `list` holds `add` (arity 2), `size` (arity 1) and `remove` (arity 2) |
| StandardLibrary.BootLayout | src/nativeMain/kotlin/StandardLibrary.kt:9-17 | `base` has no parent and only `toString`; the namespace objects follow it |
| StandardLibrary.BootConsoleFunctions | src/nativeMain/kotlin/StandardLibrary.kt:18-21 | `io` holds `print`, `read`, `open` and `write` with arities 1, 0, 1 and 2 |
| StandardLibrary.BootClockFunctions | src/nativeMain/kotlin/StandardLibrary.kt:22-23 | `time` holds the nullary `clock` and `now` |
| StandardLibrary.BootToString | src/nativeMain/kotlin/StandardLibrary.kt:12 | every namespace object inherits `toString`, which gives `<obj>` |
| RangeAndMap.Span | src/nativeMain/kotlin/standardLibrary/RangeAndMap.kt:19 | an inclusive integer range lists every integer from its low to its high end |
| RangeAndMap.Reversed | src/nativeMain/kotlin/standardLibrary/RangeAndMap.kt:16 | reversal keeps the length and mirrors the positions |
| RangeAndMap.Range | src/nativeMain/kotlin/standardLibrary/RangeAndMap.kt:9-24 | `range` runs from the truncated base to the truncated ceiling, inclusive, in steps of one in either direction |
| RangeAndMap.Count | src/nativeMain/kotlin/standardLibrary/RangeAndMap.kt:18-22 | counting up from low to high gives the inclusive span |
| RangeAndMap.Reverse | src/nativeMain/kotlin/standardLibrary/RangeAndMap.kt:10-16 | the loop computes the reversal |
| RangeAndMap.CreateRange | src/nativeMain/kotlin/standardLibrary/RangeAndMap.kt:26-33 | a range object is a new child of `base` whose `list` slot is a new list of the values as integers |
| RangeAndMap.RangeFun | src/nativeMain/kotlin/standardLibrary/RangeAndMap.kt:35 | `rangeFun` makes a new child of `base` whose `list` slot (the `iter` slot is left out) refers to a new list; the list counts by one from the truncated base towards the truncated ceiling, inclusive |
| RangeAndMap.RangeElements | src/nativeMain/kotlin/standardLibrary/RangeAndMap.kt:9-24 | element i of `range(base, ceil)` is the truncated base plus i counting up, or minus i counting down |
| RangeAndMap.RangeListElements | src/nativeMain/kotlin/standardLibrary/RangeAndMap.kt:26-33 | the list `createRange` builds holds the range's values in order |
| RangeAndMap.ReversedTwice | src/nativeMain/kotlin/standardLibrary/RangeAndMap.kt:10-16 | reversing twice gives back the original sequence |
| TypeBytes.ByteOf | src/nativeMain/kotlin/standardLibrary/StandardLibrary.kt:68-73 | numbers truncate and then wrap to a byte; integers and character codes wrap to a byte and are kept when already below 128 (integers: from -128); booleans become 1/0; anything else is an error |
| TypeBytes.Bytes | src/nativeMain/kotlin/standardLibrary/StandardLibrary.kt:64-83 | a list converts element-wise and fails exactly when some element cannot be converted; a text gives one byte per UTF-16 code unit, one per character on BMP text; anything else cannot be represented |
| Utf16.UnitsOf | src/nativeMain/kotlin/StandardLibrary.kt:41 | a character takes one UTF-16 unit below U+10000 and a surrogate pair above it |
| Utf16.Encode | src/nativeMain/kotlin/standardLibrary/StandardLibrary.kt:76-80 | the UTF-16 encoding of a text has at least one unit per character, exactly one for BMP text, and then the units are the characters |
| Utf16.DecodeEncode | src/nativeMain/kotlin/StandardLibrary.kt:41 | decoding the UTF-16 units of a text gives the text back |

## Left out

- Floating point: `Double` is modelled as `real`, so rounding, infinities and NaN are not modelled. Kotlin's rendering of numbers, lists and objects is left to the host (`Host.render`).
- The console, file and clock natives (`io.print`, `io.read`, `io.open`, `io.write`, `time.clock`): their results come from `Host.console`. `time.now` takes the calendar fields from `Host.now`.
- `Environment.kt` is not part of this model. Its behaviour is inferred from its call sites, including the text of the undefined-variable error.
- Fuel: every call and loop iteration spends one unit, so programs that need more than the budget end in `OutOfFuel`/`Exhausted`. Unbounded runs are not modelled.
- The lexer, `Main.kt` (the REPL, file loading and the `sys` contents), sockets and the scanner: the token sequence is the parser's input.
- Parse errors are returned as data (`Err(line, complaint)`). The printing through `Oasis.error`, the debug `println` of the token list, and the thrown exception are left out.
- `createRange`'s `iter` slot is not modelled; it maps a function over the range through the global interpreter.
- RangeAndMap.CreateRange: the parent is passed in, where the code uses the global `base`.
- `KotlinFunction3` is not used by any registered native. `Natives.Positional` still covers arity 3.
- The `arity()` methods of `OasisFunction` and the `KotlinFunctionN` wrappers are never called by the core. `Natives.Arity` gives the wrapper arity, and a closure's arity is its parameter count.
- The distinct Kotlin exception kinds collapse into `CastFailure`, `IndexFailure` and `HostError`.
- TypeBytes.ByteOf: the error message omits the rendered value the code interpolates into it.
- TypeBytes.Bytes: the error message omits the rendered value the code interpolates into it.
- The other registrations of `standardLibrary/StandardLibrary.kt` are left out: `printf`, `type.string`, `type.char`, `type.num` and the socket object.
- InterpreterFacts.ReturnGivesCallValue: stated for the function body run (`RunBody`) once parameters are bound, not for a whole `Call`.
- Interpreter.Eval: its own contract states only that the store stays closed and grows. The semantics of the expression forms are stated by `InterpreterFacts` lemmas: `GroupIsTransparent`, `PropertyReadsSlot`, `FuncCapturesScope`, `ListIndexing`, `TextIndexing`, `IndexAssignmentErrors`, `IndexAssignmentReplaces`, `AssignmentRhsFirst`, `PropertyAssignmentSets`, `AssignedVariableReadsBack`, `PlusDispatch`, `OperandsLeftToRight`, `CalleeCheckedAfterArguments`, `ProtoLiteralLinks`, `ProtoSlotValue` and `ListLiteralContents`. Literals and variable reads have no lemma of their own beyond `EvalEachLiterals` and `Environment.Get`.
- Interpreter.Exec: its own contract states only that the store stays closed and grows. Statement behaviour is stated by `InterpreterFacts.LetInIfBodyVisibleAfter`, `LetInLoopBodyVisibleAfter`, `ReturnEscapesIf`, `ReturnEscapesLoop`, `ExecNoReturn` and `ExecAllSequence`.
- Interpreter.EvalAssignment: states only that the store stays closed and grows. Its results are stated by `InterpreterFacts.AssignmentRhsFirst`, `PropertyAssignmentSets`, `AssignedVariableReadsBack`, `AssignmentNeverDeclares`, `IndexAssignmentErrors` and `IndexAssignmentReplaces`.
- Interpreter.EvalCall: states only that the store stays closed and grows. Its order of evaluation and results are stated by `InterpreterFacts.CalleeCheckedAfterArguments`, `CallIgnoresExtra`, `CallWithoutReturnGivesNil` and `FuncCapturesScope`.
- Interpreter.EvalBinOp: states only that the store stays closed and grows. Its order of evaluation is stated by `InterpreterFacts.OperandsLeftToRight`.
- Interpreter.EvalIndexer: states only that the store stays closed and grows. Its results are stated by `InterpreterFacts.ListIndexing`, `TextIndexing` and `IndexTargetCheckedFirst`.
- Interpreter.Binary: states only that the store stays closed and grows. Its results per operator are stated by `InterpreterFacts.PlusDispatch`, `NotEqualNegatesEqual`, `EqualsElementwise`, `MinusAndSlashAsWritten` and `ArithmeticInverses`, and by the per-operator ensures of `Interpreter.Comparison`.
- Interpreter.ArithmeticOn: states only that the store stays closed and grows. Its results are stated by `InterpreterFacts.MinusAndSlashAsWritten`, `ArithmeticInverses` and `SubtractionDoesNotUndoAdditionAsWritten`.
- Interpreter.Loop: states only that the store stays closed and grows. Loop behaviour is stated by `InterpreterFacts.EndlessLoopExhausts`, `FalsyLoopSkipsBody`, `LetInLoopBodyVisibleAfter` and `ReturnEscapesLoop`.
- Interpreter.ExecAll: states only that the store stays closed and grows. Block behaviour is stated by `InterpreterFacts.ExecAllSequence` and `ReturnAfterStatementsEndsBody`.
- Interpreter.FillSlots: states only that it yields the object being filled. The slot values are stated by `InterpreterFacts.ProtoSlotValue`, `FillSlotsSequence` and `RepeatedSlotKeepsLast`.
- Interpreter.Call: states only the failure cases. The value of a call is stated by `InterpreterFacts.CallWithoutReturnGivesNil`, `ReturnGivesCallValue`, `ReturnAfterStatementsGivesCallValue`, `ReturnAfterStatementsEndsBody` and `CallIgnoresExtra`, for bodies whose `return` sits at the top level of the body, or in the taken branch of an `if` or a loop body (`ReturnEscapesIf`, `ReturnEscapesLoop`). A `return` nested deeper has no lemma of its own.
- Interpreter.RunBody: states only the failure cases. What the body gives is stated by `InterpreterFacts.ReturnGivesCallValue`, `ReturnAfterStatementsGivesCallValue` and `ReturnAfterStatementsEndsBody`, with `ReturnEscapesIf` and `ReturnEscapesLoop` for a `return` inside an `if` or `while`.
- Parser.LetDecl: its own contract states only the shape of the result. `ParserFacts.LetDeclTakesExpression` ties the bound name and the initialiser to the tokens and to `Expression`.
- Parser.IfDecl: its own contract states only the shape of the result. `ParserFacts.IfDeclParts` ties the condition and the then-body to `Expression` and to the statement run.
- Parser.IfTail: the else-body's contents are stated by `ParserFacts.IfTailElseParts`.
- Parser.WhileDecl: its own contract states only the shape of the result. `ParserFacts.WhileDeclParts` ties the condition and the body to `Expression` and to the statement run.
- Parser.FnDef: its own contract states only the shape of the result. `ParserFacts.FnDefHead` and `FnDefParts` tie the parameters to `Params` and the body to the statement run.
- Parser.Params: its own contract states only that the names are identifiers. `ParserFacts.ParamsInOrder` states which names and in which order.
- Parser.ParamsRest: its own contract states only that the names are identifiers. `ParserFacts.ParamsRestIsRun` and `RunIsParamsRest` state which names.
- Parser.LetBlock: its own contract states only the shape of the result. `ParserFacts.LetBlockInOrder` states the contents.
- Parser.Arguments: its own contract states only where the list ends. `ParserFacts.ArgumentsIsList` states the contents.
- Parser.ArgumentsRest: its own contract states only that earlier arguments are kept. `ParserFacts.ArgumentsRestIsRun` and `RunIsArgumentsRest` state what is appended.
- Interpreter.Equals: list comparison spends fuel on nested lists. `None` (out of budget) is not a Kotlin outcome.
- Text is a Dafny `string`, a sequence of Unicode scalar values, where Kotlin stores UTF-16 code units. `Natives.StringSize` and `TypeBytes.Bytes` count and convert the units through `Utf16.Encode`. A `Char` value holds a scalar, not a code unit.
- InterpreterFacts.TextIndexing: indexing a text picks the k-th Unicode scalar, where Kotlin picks the k-th UTF-16 code unit. The two agree on text in the Basic Multilingual Plane.
- Interpreter.EvalIndexer: on text it picks the k-th Unicode scalar, not the k-th UTF-16 code unit; they agree on Basic Multilingual Plane text.
- TypeBytes.ByteOf: a `Char`'s code is a Unicode scalar, not a UTF-16 code unit; the two agree for characters below U+10000.
- In the intended dialect, division by zero is an error. Kotlin would produce an infinity or NaN.

## Findings

| source | as written | input that shows it | evidently intended | confidence | as-written member | corrected member |
|---|---|---|---|---|---|---|
| src/nativeMain/kotlin/Interpreter.kt:83-103 | `-` on numbers returns `left + right` and `/` returns `left * right` | `(2 + 3) - 3` gives 8 | `-` subtracts and `/` divides | high; not executed | InterpreterFacts.SubtractionDoesNotUndoAdditionAsWritten | InterpreterFacts.ArithmeticInverses |
| src/nativeMain/kotlin/Interpreter.kt:32-34 | `isTruthy` compares with the boxed `Int` 0, which no literal produces | `if 0 ... else ... end` takes the then branch | number zero is falsy | medium; not executed | InterpreterFacts.ZeroConditionAsWritten | InterpreterFacts.ZeroConditionIntended |
| src/nativeMain/kotlin/StandardLibrary.kt:40 | `z.remove(y)` with a `Double` removes by value, not by index | `list.remove([5, 6, 7], 1)` returns 6 and the list stays `[5, 6, 7]` | remove the element at the index that is returned | high; not executed | Natives.RemoveAsWrittenKeepsElement | Natives.RemoveIntendedTakesElement |
