# A verified model of the component registry's algorithms

The CLARIN component registry stores specifications of metadata components.
This Dafny project models the algorithmic core of the repository and proves what
it is for: the expansion of component specifications in the registry's own
server code, and the hard algorithms of the JavaScript libraries that its
API documentation pages ship.

- `SpecExpansion`, `SpecExpander`, `Statistics`: references between component
  specifications are inlined in place, with a set of ids per branch that detects
  recursion. Expansion is a pure substitution, fails exactly when a walk of
  references revisits its own path, and is idempotent; the statistics page counts
  what recursion over the unexpanded specifications would count.
- `Decimal`, `ToFixedHelpers`, `ToFixed`: `Number.prototype.toFixed` over six
  limbs of seven digits, rounding correctly for every double.
- `GregorianCalendar`, `IsoDate`: the calendar formula, `toISOString` and
  `Date.parse`, which invert each other on every time value.
- `SparseSplice`: `splice` on objects with holes, and with inherited elements.
- `HandlebarsCompiler`, `HandlebarsFront`: the Handlebars 4.0.5 compiler from
  syntax trees to opcodes, as functions and as the methods that emit them.
  `HandlebarsCodegen`, `HandlebarsMachine`: the code generator on its inline and
  compile stacks, likewise. `HandlebarsSemantics` gives templates a denotation
  and generated code a meaning over any run-time; `HandlebarsCorrect` and
  `HandlebarsOutput` prove that the code means what the template denotes;
  `HandlebarsHeights`, `HandlebarsBalance` and `HandlebarsLimits` say exactly when
  opcodes throw and where the promise ends, and `HandlebarsTemplates` does so for
  whole templates. `MergeSource`, `MergeText`, `MergeNumbers` and `HandlebarsMerge` are the
  merging of output lines into one function; `HandlebarsPrograms` compiles the
  nested programs onto one table in which equal programs share a function, and
  `HandlebarsSharing` says exactly when that changes what a template prints.
- `HandlebarsDepths`, `HandlebarsTrees`: the numbered outer contexts of Handlebars
  1.0.0, and the expressions its opcodes build.
- `HighlightTags`, `StreamMerge`: highlight.js merges two streams of overlapping
  elements; its tags and its text read back.
- `MarkedBlocks`, `MarkedLexer`, `MarkedRules`, `MarkedParser`: marked flattens a
  block tree into tokens and folds the tokens back.
- `SwaggerModels`: signatures and samples over graphs of models with cycles.
- `PathNormalize`, `TableCodec`: path normalisation from the back, and a
  double-byte codec that sizes its buffers in a first pass.
- `Wrappers` and `Strings` hold what several modules use.

Code that updates state is modelled by classes and methods with loops, each
proved against a function of the old state; the theorems are lemmas about these
functions. `dafny verify dfyconfig.toml` checks the project.

## Where the code does not do what is promised

The model follows the code. In these places it departs from its standard or
its documentation, and the lemma named says exactly when.

- `toFixed` floors its digits argument where section 15.7.4.5 of ECMA-262 5.1
  truncates it: an argument between -1 and 0 is a range error
  (`ToFixed.DigitsRangeDeviation`).
- Handlebars 4.0.5 keeps hash values on an array: the keys "length", "__proto__"
  and "hasOwnProperty" are not held (`HandlebarsLimits.HashHoldsKeysIff`).
- The known helpers are kept on an object and looked up by name: every name that
  any object has, such as "toString", is taken for a known helper
  (`HandlebarsCompiler.KnownIff`).
- With `stringParams` and `trackIds` both set, more is popped than was pushed
  (`HandlebarsBalance.BothModesCompileIff`); likewise for a partial under
  `explicitPartialContext` in one mode (`HandlebarsBalance.OneModeCompilesIff`).
- Under `explicitPartialContext` a dynamic partial without parameters has its name
  and its context exchanged (`HandlebarsLimits.ExplicitContextIff`).
- A program that consists of one indented partial returns only the indent under
  `preventIndent` (`HandlebarsMerge.SingleReturnsIff`). The parser makes no such
  program, since it sets an indent only after a content statement
  (`handlebars-4.0.5.js`, lines 2183 to 2188); a syntax tree passed to `parse`
  directly (lines 1373 to 1376) can hold one.
- Comparing programs leaves out `isSimple`, on which the generated function
  depends. Sharing a function between equal programs changes what is printed when
  one of them is such a single indented partial
  (`HandlebarsSharing.SharingHarmlessIff`; the input is in
  `HandlebarsSharing.SharedIndentLosesPartial`).
- An ambiguous block without program and inverse, which only a syntax tree passed
  in directly can hold, reads the options of an earlier block
  (`HandlebarsLimits.BlockPrintsIff`).
- Merged chunks that are numbers are added where two of them meet
  (`MergeNumbers.MergedPrintsChunksIff`).
- In Handlebars 1.0.0 the fallback of an unknown helper is looked up in the context
  of the path visited last (`HandlebarsDepths.FallbackInOwnContextIff`).
- highlight.js leaves double quotes in attribute values as they are: the tag of an
  element with such a value does not read back (`StreamMerge.Merge`; one tag in
  `HighlightTags.QuotedValueMisread`).
- The double-byte codec loses mapped characters whose code is below 0x8000
  (`TableCodec.RoundTripIff`).
- `splice` asks for own properties where section 15.4.4.12 of ECMA-262 5.1 asks for
  any property (`SparseSplice.SplicesAgreeIff`).

## Model

| member | source | states |
|---|---|---|
| SpecExpansion.RecursionErrorIffRevisitingWalk | ComponentRegistry/src/main/java/clarin/cmdi/componentregistry/CMDComponentSpecExpander.java:37-72 | for every registry, list and path, expansion fails if and only if some walk along references (through inline children and fetched specifications) meets an id that is on the path or earlier on the walk |
| SpecExpansion.ErrorsHaveWalk | ComponentRegistry/src/main/java/clarin/cmdi/componentregistry/CMDComponentSpecExpander.java:45-47 | a recursion error exhibits such a walk: it names the id at the end, and its path holds the ids met before |
| SpecExpansion.WalkHasErrors | ComponentRegistry/src/main/java/clarin/cmdi/componentregistry/CMDComponentSpecExpander.java:45-47 | every such walk is found, wherever it branches off |
| SpecExpansion.ExpansionsSound | ComponentRegistry/src/main/java/clarin/cmdi/componentregistry/CMDComponentSpecExpander.java:37-72 | a successful expansion is the pure substitution: a resolvable reference is replaced by its expanded specification with the reference's cardinalities where they are not empty, an unresolvable one is kept as it is, an inline component keeps its attributes |
| SpecExpansion.ExpansionsUnique | ComponentRegistry/src/main/java/clarin/cmdi/componentregistry/CMDComponentSpecExpander.java:37-72 | at most one finite substitution exists, so the path decides whether expansion succeeds and never what it gives |
| SpecExpansion.NoWalkBack | ComponentRegistry/src/main/java/clarin/cmdi/componentregistry/CMDComponentSpecExpander.java:45-47 | a component that has a finite substitution is on no cycle of references through itself |
| SpecExpansion.ComponentExpandsIffFinite | ComponentRegistry/src/main/java/clarin/cmdi/componentregistry/CMDComponentSpecExpander.java:92-98 | expanding a registered component from its own id succeeds if and only if a finite substitution of its children exists |
| SpecExpansion.ExpandAllIdempotent | ComponentRegistry/src/main/java/clarin/cmdi/componentregistry/CMDComponentSpecExpander.java:37-90 | expanding the result again, with the same registry and path, succeeds and changes nothing, although references are still set and are fetched again |
| SpecExpansion.PathGrows | ComponentRegistry/src/main/java/clarin/cmdi/componentregistry/CMDComponentSpecExpander.java:48-54 | the measure of the recursion: resolvable ids not yet on the path |
| SpecExpander.ComponentList.constructor | ComponentRegistry/src/main/java/clarin/cmdi/componentregistry/CMDComponentSpecExpander.java:38 | a new empty list that shares nothing |
| SpecExpander.ComponentList.Add | ComponentRegistry/src/main/java/clarin/cmdi/componentregistry/CMDComponentSpecExpander.java:56 | appends one node to the list and nothing else, keeping the nodes of the list disjoint |
| SpecExpander.ComponentList.Become | ComponentRegistry/src/main/java/clarin/cmdi/componentregistry/CMDComponentSpecExpander.java:70-71 | the list holds exactly the nodes of the other |
| SpecExpander.Fetch | ComponentRegistry/src/main/java/clarin/cmdi/componentregistry/CMDComponentSpecExpander.java:50-51 | an uncached fetch gives fresh nodes that hold the stored specification, so expansion in place never reaches the registry |
| SpecExpander.ComponentType.constructor | ComponentRegistry/src/main/java/clarin/cmdi/componentregistry/CMDComponentSpecExpander.java:53 | a node holds its attributes and owns its list of children |
| SpecExpander.Expander.OverwriteAttributes | ComponentRegistry/src/main/java/clarin/cmdi/componentregistry/CMDComponentSpecExpander.java:78-90 | a non-empty cardinality of the reference replaces the component's, an empty one leaves it, the reference id is set, and the children are untouched |
| SpecExpander.Expander.ExpandNestedComponent | ComponentRegistry/src/main/java/clarin/cmdi/componentregistry/CMDComponentSpecExpander.java:37-72 | the caller's list, rewritten in place by clear and addAll, holds exactly the substitution of what it held, and only nodes of the list and fresh nodes end up in it; or the recursion error is raised with the offending path and id, and the list holds the nodes it held |
| SpecExpander.Expander.FetchExpanded | ComponentRegistry/src/main/java/clarin/cmdi/componentregistry/CMDComponentSpecExpander.java:48-54 | the fetched component, its own references expanded with its id added to the path |
| SpecExpander.Expander.ExpandItem | ComponentRegistry/src/main/java/clarin/cmdi/componentregistry/CMDComponentSpecExpander.java:40-68 | the node that replaces one element, by the three branches of the loop |
| SpecExpander.Expander.AddExpansion | ComponentRegistry/src/main/java/clarin/cmdi/componentregistry/CMDComponentSpecExpander.java:39-69 | one turn of the loop appends that node or raises the error |
| SpecExpander.Expander.ExpandComponent | ComponentRegistry/src/main/java/clarin/cmdi/componentregistry/CMDComponentSpecExpander.java:92-98 | a component expands to its stored attributes over its expanded children; an unknown id is the null dereference, reported as None |
| SpecExpander.Expander.ExpandProfileSpec | ComponentRegistry/src/main/java/clarin/cmdi/componentregistry/CMDComponentSpecExpander.java:107-115 | the root of a profile is replaced by its expansion through a temporary list of one |
| SpecExpander.ExpandSnoc | ComponentRegistry/src/main/java/clarin/cmdi/componentregistry/CMDComponentSpecExpander.java:39-69 | a list is expanded left to right and stops at the first recursion |
| StatisticsPage.ExpansionCounted | ComponentRegistry/src/main/java/clarin/cmdi/componentregistry/frontend/StatisticsPage.java:94-114 | the component, element and concept-link totals of an expanded list equal totals computed by recursion on the unexpanded specifications along the references, without building the expansion |
| StatisticsPage.ComponentCounter | ComponentRegistry/src/main/java/clarin/cmdi/componentregistry/frontend/StatisticsPage.java:98-114 | adds the totals of a list and of everything below it to the statistics object |
| StatisticsPage.ElementCounter | ComponentRegistry/src/main/java/clarin/cmdi/componentregistry/frontend/StatisticsPage.java:102-110 | adds the elements of one component and those with a concept link |
| StatisticsPage.CountedIs | ComponentRegistry/src/main/java/clarin/cmdi/componentregistry/frontend/StatisticsPage.java:98-114 | the totals of a list are the number of its components, children included, of their elements, and of those elements that have a concept link |
| StatisticsPage.CountSpecification | ComponentRegistry/src/main/java/clarin/cmdi/componentregistry/frontend/StatisticsPage.java:94-96 | the root component is counted together with everything below it |
| StatisticsPage.DisplayComponentStatistics | ComponentRegistry/src/main/java/clarin/cmdi/componentregistry/frontend/StatisticsPage.java:81-92 | expanding a component and counting it gives the totals computed along the references |
| ToFixedHelpers.Accumulator.Multiply | ComponentRegistry/src/main/webapp/api-docs/lib/es5-shim.js:1602-1610 | the value v of the six limbs becomes (n * v + c) mod 10^42, whole limbs stay whole, and each limb is the remainder of its total |
| ToFixedHelpers.Accumulator.Divide | ComponentRegistry/src/main/webapp/api-docs/lib/es5-shim.js:1611-1619 | v becomes floor(v / n), in whole limbs, each the quotient of its dividend |
| ToFixedHelpers.Accumulator.NumToString | ComponentRegistry/src/main/webapp/api-docs/lib/es5-shim.js:1620-1634 | prints v as a decimal numeral without spurious zeros |
| ToFixedHelpers.TotalsExact | ComponentRegistry/src/main/webapp/api-docs/lib/es5-shim.js:1602-1610 | for the factors and addends that toFixed passes, every product, total and carry stays within 2^53 |
| ToFixedHelpers.DividendsExact | ComponentRegistry/src/main/webapp/api-docs/lib/es5-shim.js:1611-1619 | for every divisor up to 2^23, every dividend, quotient and product of the long division stays within 2^53 |
| ToFixedHelpers.DivideLimb | ComponentRegistry/src/main/webapp/api-docs/lib/es5-shim.js:1614-1618 | one step of the long division: quotient below the base, remainder below n |
| ToFixedHelpers.MultipliedWraps | ComponentRegistry/src/main/webapp/api-docs/lib/es5-shim.js:1602-1610 | carrying through the six limbs loses exactly the multiples of 10^42 |
| ToFixedHelpers.CarriedValue | ComponentRegistry/src/main/webapp/api-docs/lib/es5-shim.js:1605-1609 | carry propagation keeps the value, final carry included |
| ToFixedHelpers.QuotientOfQuotient | ComponentRegistry/src/main/webapp/api-docs/lib/es5-shim.js:1706-1711 | dividing and flooring twice is one flooring division by the product |
| ToFixed.PowIsExp | ComponentRegistry/src/main/webapp/api-docs/lib/es5-shim.js:1635-1637 | pow(x, n, acc) is acc * x^n for every x, n and acc |
| ToFixed.Log | ComponentRegistry/src/main/webapp/api-docs/lib/es5-shim.js:1638-1650 | 2^n <= x < 2^(n+1) for x >= 1, and 0 below 2 |
| ToFixed.Exponent | ComponentRegistry/src/main/webapp/api-docs/lib/es5-shim.js:1687 | 69 more than the binary exponent of x, for x from 2^-68 to below 10^21, and 0 below |
| ToFixed.ScaleUp | ComponentRegistry/src/main/webapp/api-docs/lib/es5-shim.js:1695-1703 | multiplying by 10^7 while it can and by the rest once gives z * 10^f |
| ToFixed.RoundedDigits | ComponentRegistry/src/main/webapp/api-docs/lib/es5-shim.js:1694-1714 | multiply, divide by 2^23 repeatedly, divide by the rest, add one and halve together print z * 10^f / 2^e rounded half up once |
| ToFixed.ShiftedDigits | ComponentRegistry/src/main/webapp/api-docs/lib/es5-shim.js:1715-1719 | for e <= 0 the digits are the integer z * 2^(-e) followed by f zeros, and the 32-bit shift does not wrap |
| ToFixed.Capacity | ComponentRegistry/src/main/webapp/api-docs/lib/es5-shim.js:1694-1703 | the scaled significand stays below 10^42, so the accumulator never wraps |
| ToFixed.SignificandExact | ComponentRegistry/src/main/webapp/api-docs/lib/es5-shim.js:1687-1693 | x == z / 2^e exactly |
| ToFixed.HalveRoundsUp | ComponentRegistry/src/main/webapp/api-docs/lib/es5-shim.js:1711-1713 | floor((floor(2y) + 1) / 2) is y rounded half up |
| ToFixed.Numeral | ComponentRegistry/src/main/webapp/api-docs/lib/es5-shim.js:1684-1720 | above the cut-off the digits are those of floor(x * 10^f + 1/2), for every double x below 10^21 |
| ToFixed.TinyRoundsToZero | ComponentRegistry/src/main/webapp/api-docs/lib/es5-shim.js:1682-1684 | at or below 10^-21 the rounded value is 0, so the default digit is right |
| ToFixed.LayoutIsFixedText | ComponentRegistry/src/main/webapp/api-docs/lib/es5-shim.js:1722-1734 | padding with zeros and placing the point gives the fixed decimal of the digits |
| ToFixed.ToFixed | ComponentRegistry/src/main/webapp/api-docs/lib/es5-shim.js:1653-1735 | for every double and every digits argument: the range error, NaN, delegation at 10^21 and beyond, and otherwise the sign and the decimal with f places of floor(abs(x) * 10^f + 1/2) |
| ToFixed.RoundedIsNearest | ComponentRegistry/src/main/webapp/api-docs/lib/es5-shim.js:1653-1735 | that decimal is the one nearest to x among all with f places, the larger of two, as section 15.7.4.5 of ECMA-262 5.1 asks |
| ToFixed.FixedTextReads | ComponentRegistry/src/main/webapp/api-docs/lib/es5-shim.js:1722-1734 | the text has a point f places from the end after at least one digit, and reads back as the rounded integer |
| ToFixed.FixedCases | ComponentRegistry/src/main/webapp/api-docs/lib/es5-shim.js:1653-1735 | exactly when it is the range error or the native text, from 10^21 on, and the sign of the text is that of the number |
| ToFixed.DigitsRangeDeviation | ComponentRegistry/src/main/webapp/api-docs/lib/es5-shim.js:1657-1662 | flooring the digits argument, where the standard truncates it, changes the range error exactly on the open interval (-1, 0) |
| GregorianCalendar.DayFromMonthExact | ComponentRegistry/src/main/webapp/api-docs/lib/es5-shim.js:1475-1486 | dayFromMonth(y, m) is the day count of the proleptic Gregorian calendar for every integer year and m in 0..12 |
| GregorianCalendar.YearUnique | ComponentRegistry/src/main/webapp/api-docs/lib/es5-shim.js:1318 | a day lies in exactly one year |
| GregorianCalendar.UTCFields | ComponentRegistry/src/main/webapp/api-docs/lib/es5-shim.js:1318-1326 | the UTC fields of a time value are fields of a day and a time that exist |
| GregorianCalendar.FieldsExact | ComponentRegistry/src/main/webapp/api-docs/lib/es5-shim.js:1318-1326 | the time value is recomputed from its fields |
| GregorianCalendar.YearRange | ComponentRegistry/src/main/webapp/api-docs/lib/es5-shim.js:1327-1330 | every time value has a year of at most six digits |
| IsoDate.PadTwoDigits | ComponentRegistry/src/main/webapp/api-docs/lib/es5-shim.js:1332-1335 | the in-place padding gives every field exactly two digits |
| IsoDate.ShimYearExact | ComponentRegistry/src/main/webapp/api-docs/lib/es5-shim.js:1327-1330 | slicing a padded year gives four digits for 0..9999 and a sign with six digits otherwise |
| IsoDate.FieldText | ComponentRegistry/src/main/webapp/api-docs/lib/es5-shim.js:1326-1341 | normalised fields print as their ISO text |
| IsoDate.ToISOString | ComponentRegistry/src/main/webapp/api-docs/lib/es5-shim.js:1312-1342 | a finite time value prints as the ISO text of its UTC fields, any other throws the range error |
| IsoDate.MatchExact | ComponentRegistry/src/main/webapp/api-docs/lib/es5-shim.js:1453-1473 | the date expression matches a string with given captures if and only if they are well formed and the string is their text |
| IsoDate.InRangeMeaning | ComponentRegistry/src/main/webapp/api-docs/lib/es5-shim.js:1540-1548 | the condition accepts exactly the days that exist in their month and year, with existing times and offsets, 24:00 included |
| IsoDate.ParseMeaning | ComponentRegistry/src/main/webapp/api-docs/lib/es5-shim.js:1519-1568 | parse delegates what does not match, gives NaN for what does not exist or is out of range, and otherwise the civil time less the zone, the fraction counting as its whole thousandths |
| IsoDate.ThousandthsUnique | ComponentRegistry/src/main/webapp/api-docs/lib/es5-shim.js:1531 | the milliseconds of a fraction are the only number m with m/1000 <= the fraction < (m + 1)/1000 |
| IsoDate.FractionZero | ComponentRegistry/src/main/webapp/api-docs/lib/es5-shim.js:1531 | a zero at the end of a fraction never changes the parsed time |
| IsoDate.ParseOfIsoText | ComponentRegistry/src/main/webapp/api-docs/lib/es5-shim.js:1519-1568 | parse(toISOString(t)) == t for every integer t with abs(t) <= 8.64e15 |
| IsoDate.IsoTextInjective | ComponentRegistry/src/main/webapp/api-docs/lib/es5-shim.js:1312-1342 | no two time values share a text |
| SparseSplice.Sparse.Splice | ComponentRegistry/src/main/webapp/api-docs/lib/es5-shim.js:799-860 | for every start and delete count the object afterwards is the prefix, the items and the tail with its holes, its length is adjusted, and the removed slice is returned index by index, holes included; a property is looked up among the owned ones, or among the inherited ones too |
| SparseSplice.Sparse.Slice | ComponentRegistry/src/main/webapp/api-docs/lib/es5-shim.js:807-815 | the result owns exactly the owned indices of the deleted range, moved to start at 0 |
| SparseSplice.Sparse.ShiftDown | ComponentRegistry/src/main/webapp/api-docs/lib/es5-shim.js:820-838 | moving the tail down, lowest index first, overwrites nothing before it is moved, and deletes what is left behind |
| SparseSplice.Sparse.ShiftUp | ComponentRegistry/src/main/webapp/api-docs/lib/es5-shim.js:839-851 | moving the tail up, highest index first, overwrites nothing before it is moved |
| SparseSplice.Sparse.Move | ComponentRegistry/src/main/webapp/api-docs/lib/es5-shim.js:824-830 | an element is copied, or its target deleted when there is a hole |
| SparseSplice.ActualStart | ComponentRegistry/src/main/webapp/api-docs/lib/es5-shim.js:803-804 | a negative start counts from the end, and the start is at least 0 and at most the length |
| SparseSplice.ActualDeleteCount | ComponentRegistry/src/main/webapp/api-docs/lib/es5-shim.js:805 | as many as asked for are deleted, at least none and at most the rest |
| SparseSplice.Sparse.Insert | ComponentRegistry/src/main/webapp/api-docs/lib/es5-shim.js:852-856 | the items take their places and nothing else changes |
| SparseSplice.SplicedParts | ComponentRegistry/src/main/webapp/api-docs/lib/es5-shim.js:799-860 | read in order, the owned elements of the new prefix, middle and tail are the old prefix, the items and the old tail |
| SparseSplice.SpliceConserves | ComponentRegistry/src/main/webapp/api-docs/lib/es5-shim.js:799-860 | new elements plus removed elements are the old elements plus the items as multisets, and each part keeps its order |
| SparseSplice.OwnedShift | ComponentRegistry/src/main/webapp/api-docs/lib/es5-shim.js:820-851 | a range that is shifted has the same owned elements in the same order |
| SparseSplice.SplicesAgreeIff | ComponentRegistry/src/main/webapp/api-docs/lib/es5-shim.js:799-860 | looking up own properties, as the code does, and any properties, as section 15.4.4.12 of ECMA-262 5.1 asks, leaves the same object and returns the same slice if and only if no index that is looked up is inherited without being owned: the deleted range and, when the count of items differs from the delete count, the tail |
| SparseSplice.SpliceBoth | ComponentRegistry/src/main/webapp/api-docs/lib/es5-shim.js:799-860 | running both on the same object agrees if and only if that condition holds |
| SparseSplice.InheritedElementMissed | ComponentRegistry/src/main/webapp/api-docs/lib/es5-shim.js:807-815 | an object without elements that inherits one: the code returns a hole, the standard the element |
| HandlebarsCompiler.KindIff | ComponentRegistry/src/main/webapp/api-docs/lib/handlebars-4.0.5.js:3102-3136 | the three kinds of a call, decided by its path, its arguments, the block parameters in scope and the options |
| HandlebarsCompiler.InnermostDeclared | ComponentRegistry/src/main/webapp/api-docs/lib/handlebars-4.0.5.js:3201-3209 | a block parameter is found in the innermost program that declares it, at its first position there |
| HandlebarsCompiler.KnownIff | ComponentRegistry/src/main/webapp/api-docs/lib/handlebars-4.0.5.js:2806-2825 | a helper is known if the caller says so or, where the caller says nothing, if it is built in or a name that every object has |
| HandlebarsCompiler.ScopedIdIff | ComponentRegistry/src/main/webapp/api-docs/lib/handlebars-4.0.5.js:1322-1324 | a path is scoped if and only if it starts with a dot or has a "this" that ends a word |
| HandlebarsCompiler.StripDotsIs | ComponentRegistry/src/main/webapp/api-docs/lib/handlebars-4.0.5.js:3149 | in stringParams mode the steps in front of a text are stripped, all of them and nothing else |
| HandlebarsCompiler.StringModeValueIs | ComponentRegistry/src/main/webapp/api-docs/lib/handlebars-4.0.5.js:3145-3150 | what stands for an argument in stringParams mode, by its kind |
| HandlebarsCompiler.IdTextIs | ComponentRegistry/src/main/webapp/api-docs/lib/handlebars-4.0.5.js:3175 | an id loses a leading this, "./" or lone dot, and nothing else |
| HandlebarsCompiler.IdOfIs | ComponentRegistry/src/main/webapp/api-docs/lib/handlebars-4.0.5.js:3165-3178 | with trackIds an argument is identified by the block parameter it names, where that is declared, or by its text |
| HandlebarsFront.Compiler.Classify | ComponentRegistry/src/main/webapp/api-docs/lib/handlebars-4.0.5.js:3102-3136 | a call is a helper if and only if it is no block parameter and has arguments or a known simple name, and ambiguous if and only if it has no arguments and a simple name that is no block parameter in scope and not known, while knownHelpersOnly is off |
| HandlebarsFront.Compiler.PushParam | ComponentRegistry/src/main/webapp/api-docs/lib/handlebars-4.0.5.js:3144-3183 | emits one argument as stringParams, trackIds or plain mode asks |
| HandlebarsFront.Compiler.VisitHash | ComponentRegistry/src/main/webapp/api-docs/lib/handlebars-4.0.5.js:3073-3087 | emits the values first to last and then the keys last to first |
| HandlebarsFront.Compiler.Block | ComponentRegistry/src/main/webapp/api-docs/lib/handlebars-4.0.5.js:2885-2906 | emits the call and the block value of a block, by its classification |
| HandlebarsFront.Compiler.Partial | ComponentRegistry/src/main/webapp/api-docs/lib/handlebars-4.0.5.js:2926-2952 | emits a partial with its one context parameter, and throws exactly for more parameters or an argument that throws |
| HandlebarsFront.Compiler.CompileNested | ComponentRegistry/src/main/webapp/api-docs/lib/handlebars-4.0.5.js:2830-2842 | compiles a nested program with a compiler of its own; the number returned is its place among the children |
| HandlebarsFront.Compiler.Visit | ComponentRegistry/src/main/webapp/api-docs/lib/handlebars-4.0.5.js:2844-2977 | a statement adds its opcodes and its programs, and throws exactly when it is not acceptable |
| HandlebarsFront.Compiler.CompileBody | ComponentRegistry/src/main/webapp/api-docs/lib/handlebars-4.0.5.js:2856-2871 | a program compiles to its environment with its block parameters in scope, and the scope is restored |
| HandlebarsSemantics.HelperWins | ComponentRegistry/src/main/webapp/api-docs/lib/handlebars-4.0.5.js:3980-3998 | a mustache of one unknown name prints the result of the helper of that name if the run-time has one, whatever the context holds |
| HandlebarsSemantics.NameAsks | ComponentRegistry/src/main/webapp/api-docs/lib/handlebars-4.0.5.js:3980-3998 | without a helper the context's value is printed, called if it is a function, and without either helperMissing is asked |
| HandlebarsSemantics.PartialContextIs | ComponentRegistry/src/main/webapp/api-docs/lib/handlebars-4.0.5.js:2926-2933 | a partial gets its parameter, or else the current context, or under explicitPartialContext nothing |
| HandlebarsSemantics.CallAsks | ComponentRegistry/src/main/webapp/api-docs/lib/handlebars-4.0.5.js:3942-3956 | a call with arguments goes to the helper of a simple name, otherwise to what the context holds, otherwise to helperMissing |
| HandlebarsCorrect.RunExpr | ComponentRegistry/src/main/webapp/api-docs/lib/handlebars-4.0.5.js:2979-3071 | the opcodes of every expression run on any stacks, leave one entry on top of what was there, and that entry computes the expression's denotation |
| HandlebarsCorrect.RunParams | ComponentRegistry/src/main/webapp/api-docs/lib/handlebars-4.0.5.js:3138-3183 | parameters leave their arguments in source order, in all three modes |
| HandlebarsCorrect.RunKeys | ComponentRegistry/src/main/webapp/api-docs/lib/handlebars-4.0.5.js:3082-3086 | every hash key is paired with its own value although values are popped in reverse |
| HandlebarsCorrect.RunHash | ComponentRegistry/src/main/webapp/api-docs/lib/handlebars-4.0.5.js:3073-3087 | a hash leaves the object of its pairs, the first of two equal keys counting, and restores the hash it nests in |
| HandlebarsCorrect.RunArguments | ComponentRegistry/src/main/webapp/api-docs/lib/handlebars-4.0.5.js:3185-3199 | parameters, programs and hash are pushed in the order setupParams takes them off |
| HandlebarsCorrect.SetupMeans | ComponentRegistry/src/main/webapp/api-docs/lib/handlebars-4.0.5.js:4313-4381 | setupParams takes off exactly these arguments, in source order, and leaves everything below untouched |
| HandlebarsCorrect.RunCall | ComponentRegistry/src/main/webapp/api-docs/lib/handlebars-4.0.5.js:3014-3030 | a helper call leaves one entry that calls the helper with its own arguments and options |
| HandlebarsCorrect.RunPath | ComponentRegistry/src/main/webapp/api-docs/lib/handlebars-4.0.5.js:3032-3051 | a path leaves one entry that walks its parts from the block parameter, the data or the context |
| HandlebarsCorrect.PutKeyedMap | ComponentRegistry/src/main/webapp/api-docs/lib/handlebars-4.0.5.js:4043-4068 | assigning a key replaces its value in place or adds it, as a map update |
| HandlebarsCorrect.ReplaceMeans | ComponentRegistry/src/main/webapp/api-docs/lib/handlebars-4.0.5.js:4171-4208 | replaceStack rewrites the top entry into the wrapped value and leaves everything below it alone |
| HandlebarsCorrect.RunPopHash | ComponentRegistry/src/main/webapp/api-docs/lib/handlebars-4.0.5.js:3866-3879 | popHash leaves the assembled object and brings the outer hash back |
| HandlebarsOutput.RunMustache | ComponentRegistry/src/main/webapp/api-docs/lib/handlebars-4.0.5.js:2958-2989 | a mustache leaves one entry that computes a lookup, a possible helper or a helper call, by its classification |
| HandlebarsOutput.RunBlock | ComponentRegistry/src/main/webapp/api-docs/lib/handlebars-4.0.5.js:2873-2907 | a block runs from clean stacks to clean stacks and prints what it denotes, once |
| HandlebarsOutput.RunPartial | ComponentRegistry/src/main/webapp/api-docs/lib/handlebars-4.0.5.js:2918-2952 | a partial prints its indent and the partial invoked with its own context, hash and program |
| HandlebarsOutput.RunDecorator | ComponentRegistry/src/main/webapp/api-docs/lib/handlebars-4.0.5.js:2909-2916 | a decorator registers one call with its own arguments and prints nothing |
| HandlebarsOutput.RunAmbiguousBlock | ComponentRegistry/src/main/webapp/api-docs/lib/handlebars-4.0.5.js:3651-3669 | an ambiguous block flushes its call into a variable, replaces it by blockHelperMissing when no helper was called, and reads the same variable back |
| HandlebarsOutput.RunStatement | ComponentRegistry/src/main/webapp/api-docs/lib/handlebars-4.0.5.js:2844-2977 | every statement runs without underflow, leaves both stacks and stackSlot as it found them, and prints exactly its denotation after what was printed before |
| HandlebarsOutput.RunBody | ComponentRegistry/src/main/webapp/api-docs/lib/handlebars-4.0.5.js:2856-2871 | a body prints its statements in order |
| HandlebarsOutput.CompileCorrect | ComponentRegistry/src/main/webapp/api-docs/lib/handlebars-4.0.5.js:3379-3431 | for every program, in at most one of the two modes, the generated lines print its denotation under every run-time, and nothing is left on the stacks; the denotation branches on what is written and in scope, not on the compiler's classification |
| HandlebarsOutput.ChildrenInOrder | ComponentRegistry/src/main/webapp/api-docs/lib/handlebars-4.0.5.js:2830-2842 | the number a statement pushes is the place of its own nested program among the children |
| HandlebarsHeights.StepMoves | ComponentRegistry/src/main/webapp/api-docs/lib/handlebars-4.0.5.js:3634-4068 | every opcode moves the stack height by a fixed amount or throws, and stackSlot stays the number of variables on the compile stack |
| HandlebarsHeights.RunMoves | ComponentRegistry/src/main/webapp/api-docs/lib/handlebars-4.0.5.js:3416-3422 | the same over any run of any opcodes from any state |
| HandlebarsHeights.StepSome | ComponentRegistry/src/main/webapp/api-docs/lib/handlebars-4.0.5.js:4239-4255 | an opcode throws exactly when the stacks hold fewer entries than it pops |
| HandlebarsBalance.StatementCompilesIff | ComponentRegistry/src/main/webapp/api-docs/lib/handlebars-4.0.5.js:2844-2977 | in every mode a statement compiles if and only if no argument entry is missing, and it then leaves the stacks as it found them |
| HandlebarsBalance.BothModesCompileIff | ComponentRegistry/src/main/webapp/api-docs/lib/handlebars-4.0.5.js:3144-3183 | with stringParams and trackIds both set, a statement compiles exactly when it passes no argument and is no partial, because pushParam leaves out the ids that are popped |
| HandlebarsBalance.OneModeCompilesIff | ComponentRegistry/src/main/webapp/api-docs/lib/handlebars-4.0.5.js:2918-2952 | with at most one of them set, only a parameterless partial under explicitPartialContext can fail, and does exactly when ids or types are popped with it |
| HandlebarsLimits.HashHoldsKeysIff | ComponentRegistry/src/main/webapp/api-docs/lib/handlebars-4.0.5.js:3860-3879 | a hash holds all its keys if and only if none is "length", "__proto__" or "hasOwnProperty": its values are kept on an array, which is listed by asking its hasOwnProperty |
| HandlebarsLimits.ExplicitContextSwaps | ComponentRegistry/src/main/webapp/api-docs/lib/handlebars-4.0.5.js:2918-2952 | under explicitPartialContext a dynamic partial without parameters is invoked with its context as the partial and its name as the context |
| HandlebarsLimits.ExplicitContextIff | ComponentRegistry/src/main/webapp/api-docs/lib/handlebars-4.0.5.js:2918-2952 | such a partial prints its denotation under every run-time exactly when its name is static |
| HandlebarsLimits.BlockPrintsIff | ComponentRegistry/src/main/webapp/api-docs/lib/handlebars-4.0.5.js:2873-2907 | a block prints its denotation under every run-time exactly when it has a program or an inverse or is not ambiguous; otherwise it reads the options that an earlier block left |
| HandlebarsMachine.JavaScriptCompiler.PopStack | ComponentRegistry/src/main/webapp/api-docs/lib/handlebars-4.0.5.js:4239-4255 | takes the last inline entry, or else the last compiled one with its variable, and throws exactly on underflow |
| HandlebarsMachine.JavaScriptCompiler.ReplaceStack | ComponentRegistry/src/main/webapp/api-docs/lib/handlebars-4.0.5.js:4171-4208 | rewrites the top entry through a variable that is given back |
| HandlebarsMachine.JavaScriptCompiler.FlushInline | ComponentRegistry/src/main/webapp/api-docs/lib/handlebars-4.0.5.js:4220-4233 | inline entries move to the compile stack in order, code into variables |
| HandlebarsMachine.JavaScriptCompiler.PopHash | ComponentRegistry/src/main/webapp/api-docs/lib/handlebars-4.0.5.js:3866-3879 | pushes the parts of the hash and restores the outer one, or throws |
| HandlebarsMachine.JavaScriptCompiler.PopArgs | ComponentRegistry/src/main/webapp/api-docs/lib/handlebars-4.0.5.js:4346-4360 | pops the last parameter first and returns them in source order |
| HandlebarsMachine.JavaScriptCompiler.SetupParams | ComponentRegistry/src/main/webapp/api-docs/lib/handlebars-4.0.5.js:4313-4381 | the options and parameters of a call, with a no-op for a missing program |
| HandlebarsMachine.JavaScriptCompiler.AssignToHash | ComponentRegistry/src/main/webapp/api-docs/lib/handlebars-4.0.5.js:4043-4068 | the popped value, id and type are stored under one key |
| HandlebarsMachine.JavaScriptCompiler.Apply | ComponentRegistry/src/main/webapp/api-docs/lib/handlebars-4.0.5.js:3416-3422 | runs the method of an opcode |
| HandlebarsMachine.JavaScriptCompiler.Compile | ComponentRegistry/src/main/webapp/api-docs/lib/handlebars-4.0.5.js:3379-3431 | succeeds exactly when every opcode runs and both stacks and stackSlot end empty, and then holds the lines of the run |
| HandlebarsTemplates.EveryProgramCompilesIff | ComponentRegistry/src/main/webapp/api-docs/lib/handlebars-4.0.5.js:3405-3431 | in every mode a template whose hash keys are held compiles, with every program nested in it however deep, exactly when no statement of any of them loses an argument entry that is popped, so that "content left on stack" and the underflow are unreachable |
| HandlebarsTemplates.FittingCompiles | ComponentRegistry/src/main/webapp/api-docs/lib/handlebars-4.0.5.js:3405-3431 | in one mode every template that fits, which is the condition under which its denotation is printed, compiles so |
| HandlebarsTemplates.BelowCompiles | ComponentRegistry/src/main/webapp/api-docs/lib/handlebars-4.0.5.js:2830-2842 | the environments nested in a compiled template are its nested programs in order, compiled in their scopes |
| HandlebarsPrograms.EqualsIsSame | ComponentRegistry/src/main/webapp/api-docs/lib/handlebars-4.0.5.js:2765-2792 | equal opcode lists imply equal child counts, as the comment in the source claims, so equals never meets a missing child and decides equality of whole programs |
| HandlebarsPrograms.CompiledWellFormed | ComponentRegistry/src/main/webapp/api-docs/lib/handlebars-4.0.5.js:2830-2842 | every environment has exactly one child for each program its opcodes push |
| HandlebarsPrograms.ProgramContext.Compare | ComponentRegistry/src/main/webapp/api-docs/lib/handlebars-4.0.5.js:2768-2792 | the two loops of equals, the failing access to a missing child included |
| HandlebarsPrograms.ProgramContext.MatchExistingProgram | ComponentRegistry/src/main/webapp/api-docs/lib/handlebars-4.0.5.js:4117-4124 | finds a slot that holds an equal environment, or none exists |
| HandlebarsPrograms.ProgramContext.Number | ComponentRegistry/src/main/webapp/api-docs/lib/handlebars-4.0.5.js:4094-4115 | one child gets the number of a slot that holds the compilation of an equal environment, its own function if none was there before |
| HandlebarsPrograms.ProgramContext.CompileChildren | ComponentRegistry/src/main/webapp/api-docs/lib/handlebars-4.0.5.js:4086-4116 | every child gets such a number, slots already filled stay, no two slots hold equal environments, placeholders of enclosing compilations included, and each slot holds the function of the first of its equals |
| HandlebarsPrograms.ProgramContext.Compile | ComponentRegistry/src/main/webapp/api-docs/lib/handlebars-4.0.5.js:3379-3431 | the children first, then the opcodes and the merging of their lines, on the same table |
| HandlebarsPrograms.NumbersDecideSameness | ComponentRegistry/src/main/webapp/api-docs/lib/handlebars-4.0.5.js:4086-4124 | two numbers are equal if and only if their environments are |
| HandlebarsSharing.PathTo | ComponentRegistry/src/main/webapp/api-docs/lib/handlebars-4.0.5.js:2830-2842 | every nested program is reached from the template along numbers of children |
| HandlebarsSharing.FunctionAt | ComponentRegistry/src/main/webapp/api-docs/lib/handlebars-4.0.5.js:4086-4138 | in a finished compilation the function found along the numbers of a program is made of the program's own lines, merged or returning as the first program equal to it is |
| HandlebarsSharing.TemplatePrintsIff | ComponentRegistry/src/main/webapp/api-docs/lib/handlebars-4.0.5.js:4086-4138 | every program of a template, called through the finished table, returns its denotation if and only if no program that is the first of its equals is a single indented partial |
| HandlebarsSharing.SharingHarmlessIff | ComponentRegistry/src/main/webapp/api-docs/lib/handlebars-4.0.5.js:2768-2792 | sharing changes nothing that a program returns if and only if no two equal programs are a single indented partial and a program of several statements, between which equals does not tell because it leaves out isSimple |
| HandlebarsSharing.CommentChangesForm | ComponentRegistry/src/main/webapp/api-docs/lib/handlebars-4.0.5.js:2856-2871 | an indented partial alone and the same partial with a comment are equal, but only the first is simple |
| HandlebarsSharing.SharedIndentLosesPartial | ComponentRegistry/src/main/webapp/api-docs/lib/handlebars-4.0.5.js:4117-4124 | in a template with these two as blocks, the second returns only the indent, although its own function would return everything |
| HandlebarsSharing.CompileTemplate | ComponentRegistry/src/main/webapp/api-docs/lib/handlebars-4.0.5.js:3230-3252 | compiles a template and its nested programs on one table; it throws for no template whose nested programs all compile |
| MergeSource.MergedMeans | ComponentRegistry/src/main/webapp/api-docs/lib/handlebars-4.0.5.js:3567-3623 | for every mix of append and other lines, the merged function (initialise, add, return the last run) returns what appending each line in order gives, whatever an undeclared buffer would hold |
| MergeSource.AsIsMeans | ComponentRegistry/src/main/webapp/api-docs/lib/handlebars-4.0.5.js:3567-3623 | in a program of one statement the function returns what its lines return |
| MergeSource.Merger.CloseRun | ComponentRegistry/src/main/webapp/api-docs/lib/handlebars-4.0.5.js:3583-3613 | a run of appends gets one prefix and one semicolon |
| MergeSource.Merger.Conclude | ComponentRegistry/src/main/webapp/api-docs/lib/handlebars-4.0.5.js:3600-3622 | after the last line the pending run is returned and the buffer declared as the lines before it ask |
| MergeSource.Merger.MergeSource | ComponentRegistry/src/main/webapp/api-docs/lib/handlebars-4.0.5.js:3567-3623 | the loop over the lines writes exactly the merged function, or the lines as they are for a program of one statement |
| MergeText.MergedTextReads | ComponentRegistry/src/main/webapp/api-docs/lib/handlebars-4.0.5.js:3567-3623 | the text that is written, with its declarations, prefixes, plus signs, semicolons and returns, reads back as exactly the statements of the merged function, or of the one left as it is |
| MergeNumbers.RunPrintsChunksIff | ComponentRegistry/src/main/webapp/api-docs/lib/handlebars-4.0.5.js:3567-3623 | when chunks may be integers or booleans, a run prints them one after another if and only if it does not begin with two of them, which plus would add |
| MergeNumbers.GroupsPrintChunksIff | ComponentRegistry/src/main/webapp/api-docs/lib/handlebars-4.0.5.js:3583-3613 | sums added up print all their chunks if and only if no sum begins with two numbers and the first two are not both single numbers; a wrong sum is never longer than its chunks, so nothing later makes up for it |
| MergeNumbers.MergedPrintsChunksIff | ComponentRegistry/src/main/webapp/api-docs/lib/handlebars-4.0.5.js:3567-3623 | for every mix of lines the whole merged function (initialise, add, return the last run) prints its chunks one after another if and only if that condition holds of its runs |
| MergeNumbers.TwoNumbersAdded | ComponentRegistry/src/main/webapp/api-docs/lib/handlebars-4.0.5.js:3567-3623 | the chunks 1 and 2 are returned as 3 |
| HandlebarsMerge.FunctionReturns | ComponentRegistry/src/main/webapp/api-docs/lib/handlebars-4.0.5.js:3522-3565 | the merged function of a program returns what the program denotes, under every run-time and from any variables |
| HandlebarsMerge.SingleReturnsIff | ComponentRegistry/src/main/webapp/api-docs/lib/handlebars-4.0.5.js:3350-3370 | the function of a program of one statement returns what the statement denotes if and only if it is no indented partial under preventIndent, of which it returns only the indent |
| HandlebarsMerge.FormReturnsIff | ComponentRegistry/src/main/webapp/api-docs/lib/handlebars-4.0.5.js:3567-3569 | a program whose lines are put in the form of an equal program returns its denotation if and only if that one is no single indented partial |
| HandlebarsMerge.FormsAgreeIff | ComponentRegistry/src/main/webapp/api-docs/lib/handlebars-4.0.5.js:3567-3569 | the merged and the returning form of equal programs agree if and only if neither is a single indented partial |
| HandlebarsDepths.IdNode | ComponentRegistry/src/main/webapp/api-docs/lib/handlebars-1.0.0.js:745-773 | a path's depth counts its parent steps, its parts are the names, it is simple exactly when it is one name, and navigation after a name throws |
| HandlebarsDepths.DepthNIsNLevelsOut | ComponentRegistry/src/main/webapp/api-docs/lib/handlebars-1.0.0.js:1877-1897 | for every template and every way its programs nest at run-time, each depthN the running code mentions is bound, to the context N levels out, and undefined beyond the root |
| HandlebarsDepths.EnterRight | ComponentRegistry/src/main/webapp/api-docs/lib/handlebars-1.0.0.js:2235-2245 | entering a child binds its depthd to the parent's depth(d-1) and its depth0 to the new context |
| HandlebarsDepths.NestedRight | ComponentRegistry/src/main/webapp/api-docs/lib/handlebars-1.0.0.js:2235-2245 | the same along any chain of nested programs |
| HandlebarsDepths.GeneratedClosed | ComponentRegistry/src/main/webapp/api-docs/lib/handlebars-1.0.0.js:1439-1443 | every depthN a program mentions is one of its parameters |
| HandlebarsDepths.ProgramDetermined | ComponentRegistry/src/main/webapp/api-docs/lib/handlebars-1.0.0.js:1002-1018 | the depth list of a program is the sorted list of the depths its own opcodes get and its children pass on |
| HandlebarsDepths.EqualsKeepsDepths | ComponentRegistry/src/main/webapp/api-docs/lib/handlebars-1.0.0.js:922-955 | programs that share one function take the same depth parameters |
| HandlebarsDepths.IdMentions | ComponentRegistry/src/main/webapp/api-docs/lib/handlebars-1.0.0.js:1164-1178 | a path is looked up in the context as many levels out as it has parent steps |
| HandlebarsDepths.FallbackInOwnContextIff | ComponentRegistry/src/main/webapp/api-docs/lib/handlebars-1.0.0.js:1151-1162 | in every program, the name of an unknown helper falls back to a lookup in the context of the path visited last, among its arguments or else in the statements before it: in its own context if and only if there is no such path or it has depth 0 |
| HandlebarsDepths.BodyContext | ComponentRegistry/src/main/webapp/api-docs/lib/handlebars-1.0.0.js:1579-1583 | after any statements the context got last is that of the last path on their own level, whatever their nested programs visit |
| HandlebarsDepths.Compiler.AddDepth | ComponentRegistry/src/main/webapp/api-docs/lib/handlebars-1.0.0.js:1216-1224 | a depth is listed once, and depth 0 never |
| HandlebarsDepths.Compiler.CompileNested | ComponentRegistry/src/main/webapp/api-docs/lib/handlebars-1.0.0.js:1002-1018 | a nested program is compiled and its depths of two and more are passed on, less one |
| HandlebarsDepths.Compiler.Visit | ComponentRegistry/src/main/webapp/api-docs/lib/handlebars-1.0.0.js:981-1205 | a statement adds its opcodes, programs and depths, or throws exactly when it is not acceptable |
| HandlebarsDepths.Compiler.CompileRoot | ComponentRegistry/src/main/webapp/api-docs/lib/handlebars-1.0.0.js:985-1000 | a program compiles to its environment with sorted depths |
| HandlebarsDepths.JavaScriptCompiler.Apply | ComponentRegistry/src/main/webapp/api-docs/lib/handlebars-1.0.0.js:1579-1650 | an opcode names the depth of the context got last and the depths its program call passes |
| HandlebarsDepths.JavaScriptCompiler.Compile | ComponentRegistry/src/main/webapp/api-docs/lib/handlebars-1.0.0.js:1334-1373 | the parameters are depth0 and the depth list, and nothing else is mentioned |
| HandlebarsTrees.ProgramRun | ComponentRegistry/src/main/webapp/api-docs/lib/handlebars-1.0.0.js:985-1000 | the opcodes of every program, run on one stack of expressions, leave it empty and append the expressions that the statements denote: arguments in source order, keys with their own values, and names looked up in the contexts they say |
| HandlebarsTrees.CallRun | ComponentRegistry/src/main/webapp/api-docs/lib/handlebars-1.0.0.js:1102-1162 | the opcodes of a mustache leave one expression, a value, a helper call or an ambiguous call, by what is written and known |
| HandlebarsTrees.SetupIs | ComponentRegistry/src/main/webapp/api-docs/lib/handlebars-1.0.0.js:2048-2102 | setupParams takes off the hash, the programs and the parameters in source order, with a no-op for a missing program |
| HighlightTags.EscapeIsEach | ComponentRegistry/src/main/webapp/api-docs/lib/highlight.7.3.pack.js:1 | the three replacements escape every character by itself |
| HighlightTags.UnescapeEscaped | ComponentRegistry/src/main/webapp/api-docs/lib/highlight.7.3.pack.js:1 | unescaping what was escaped gives it back |
| HighlightTags.StripShown | ComponentRegistry/src/main/webapp/api-docs/lib/highlight.7.3.pack.js:1 | taking the tags out of written tokens gives the escaped text of the tokens |
| HighlightTags.TagReadsIff | ComponentRegistry/src/main/webapp/api-docs/lib/highlight.7.3.pack.js:1 | an opening tag reads back as its element's name and attributes in order, each value unescaped, if and only if no value holds a double quote; a closing tag always reads back as the lower-cased name |
| HighlightTags.TagsReadIff | ComponentRegistry/src/main/webapp/api-docs/lib/highlight.7.3.pack.js:1 | reading the tags of a written text gives exactly the tags of its tokens under that condition |
| HighlightTags.QuotedValueMisread | ComponentRegistry/src/main/webapp/api-docs/lib/highlight.7.3.pack.js:1 | the value x"y is misread |
| StreamMerge.EventsProper | ComponentRegistry/src/main/webapp/api-docs/lib/highlight.7.3.pack.js:1 | the event stream of a document is sorted by offset, starts and stops every element once, and is well nested: the element started last is stopped first |
| StreamMerge.EventsCover | ComponentRegistry/src/main/webapp/api-docs/lib/highlight.7.3.pack.js:1 | in a document's stream every character is covered by exactly the elements around it in the document |
| StreamMerge.Stream.Collect | ComponentRegistry/src/main/webapp/api-docs/lib/highlight.7.3.pack.js:1 | the collecting recursion pushes exactly the events of the nodes and returns the offset after their text |
| StreamMerge.Select | ComponentRegistry/src/main/webapp/api-docs/lib/highlight.7.3.pack.js:1 | the stream with the earlier event comes next; at equal offsets stops come before starts |
| StreamMerge.CloseTo | ComponentRegistry/src/main/webapp/api-docs/lib/highlight.7.3.pack.js:1 | the closing loop always finds its node and closes exactly the elements above it |
| StreamMerge.Reopen | ComponentRegistry/src/main/webapp/api-docs/lib/highlight.7.3.pack.js:1 | the elements closed on the way are opened again in order |
| StreamMerge.StopElement | ComponentRegistry/src/main/webapp/api-docs/lib/highlight.7.3.pack.js:1 | stopping an element under others closes down to it, takes it out and reopens the rest, keeping the output well nested |
| StreamMerge.StartElement | ComponentRegistry/src/main/webapp/api-docs/lib/highlight.7.3.pack.js:1 | starting an element opens it on top |
| StreamMerge.EmitText | ComponentRegistry/src/main/webapp/api-docs/lib/highlight.7.3.pack.js:1 | the text up to the next event is written escaped under exactly the open elements |
| StreamMerge.TakeEvent | ComponentRegistry/src/main/webapp/api-docs/lib/highlight.7.3.pack.js:1 | one round keeps the written part well nested, on both streams |
| StreamMerge.Merge | ComponentRegistry/src/main/webapp/api-docs/lib/highlight.7.3.pack.js:1 | two sorted, proper streams that may overlap merge into well-nested output; stripping the tags gives the escaped text, every character is covered by exactly the elements that cover it in the streams, every element of the streams is opened and no other, the streams are used up, and the tags read back with their names and attributes if and only if no attribute value holds a double quote |
| MarkedBlocks.FlattenNested | ComponentRegistry/src/main/webapp/api-docs/lib/marked.js:259-353 | the tokens of a block tree are well nested, with items directly inside lists |
| MarkedBlocks.FlattenConcat | ComponentRegistry/src/main/webapp/api-docs/lib/marked.js:149-442 | tokens of consecutive blocks are consecutive |
| MarkedLexer.PutBackShort | ComponentRegistry/src/main/webapp/api-docs/lib/marked.js:315-323 | what the smart-list backpedal puts back is shorter than the list it was taken from |
| MarkedLexer.RestShorter | ComponentRegistry/src/main/webapp/api-docs/lib/marked.js:281-353 | after a list the rest of the source is shorter than before, backpedal included |
| MarkedLexer.LexedNested | ComponentRegistry/src/main/webapp/api-docs/lib/marked.js:149-442 | whatever the source and the matches, if lexing succeeds its tokens are well nested |
| MarkedLexer.LexProper | ComponentRegistry/src/main/webapp/api-docs/lib/marked.js:149-442 | the tokens are those of a block tree with leaf tokens at the leaves in which every list has an item |
| MarkedLexer.LexSucceeds | ComponentRegistry/src/main/webapp/api-docs/lib/marked.js:435-438 | when the newline and text rules cover every source the "Infinite loop" error is never thrown |
| MarkedLexer.Lexer.Tokenize | ComponentRegistry/src/main/webapp/api-docs/lib/marked.js:149-442 | terminates for every source when each match consumes a character, pushes exactly the tokens of the block tree and records its link definitions, and fails exactly on the "Infinite loop" error |
| MarkedLexer.Lexer.Block | ComponentRegistry/src/main/webapp/api-docs/lib/marked.js:172-438 | one turn of the loop: the first rule that matches, in order, gives the next block and a shorter source |
| MarkedLexer.Lexer.QuoteBlock | ComponentRegistry/src/main/webapp/api-docs/lib/marked.js:259-279 | a blockquote's tokens enclose those of its inner text |
| MarkedLexer.Lexer.ListBlock | ComponentRegistry/src/main/webapp/api-docs/lib/marked.js:281-353 | the items up to the first of another kind become the list, the others are put back on the source |
| MarkedLexer.Lexer.Item | ComponentRegistry/src/main/webapp/api-docs/lib/marked.js:334-349 | an item's tokens enclose those of its text, loose or not |
| MarkedLexer.Lexer.LeafBlock | ComponentRegistry/src/main/webapp/api-docs/lib/marked.js:172-183 | a leaf token is pushed |
| MarkedLexer.Lexer.DefBlock | ComponentRegistry/src/main/webapp/api-docs/lib/marked.js:368-376 | a link definition is recorded and no token is pushed |
| MarkedRules.FirstRuleWins | ComponentRegistry/src/main/webapp/api-docs/lib/marked.js:172-438 | the rest of a source after its line breaks is taken by the first rule that matches, in the order code, fences, heading, nptable, lheading, hr, blockquote, list, html, def, table, paragraph, text, tables and paragraphs at top level only and definitions outside blockquotes; the tree starts with that rule's block and goes on with what it leaves |
| MarkedRules.NoRuleMatches | ComponentRegistry/src/main/webapp/api-docs/lib/marked.js:435-438 | where no rule matches nothing is left, or the "Infinite loop" error is thrown |
| MarkedRules.KeptIs | ComponentRegistry/src/main/webapp/api-docs/lib/marked.js:315-323 | with smartLists a list ends exactly before the first bullet that is neither its own nor, like it, a number |
| MarkedRules.PutBackIsJoin | ComponentRegistry/src/main/webapp/api-docs/lib/marked.js:320 | the other items go back one per line |
| MarkedRules.ItemsLexed | ComponentRegistry/src/main/webapp/api-docs/lib/marked.js:325-349 | an item is loose if and only if it holds an empty line, or one parts it from the item before or behind |
| MarkedRules.LastLinkCounts | ComponentRegistry/src/main/webapp/api-docs/lib/marked.js:368-376 | of several definitions of one key the last counts |
| MarkedParser.Parser.Next | ComponentRegistry/src/main/webapp/api-docs/lib/marked.js:934-936 | pops one token of the reversed list |
| MarkedParser.Parser.ParseText | ComponentRegistry/src/main/webapp/api-docs/lib/marked.js:950-958 | consecutive text tokens become one text, and the token after them is not taken |
| MarkedParser.Parser.LeafOut | ComponentRegistry/src/main/webapp/api-docs/lib/marked.js:966-1066 | renders a leaf token, table rows and cells included |
| MarkedParser.LeavesAre | ComponentRegistry/src/main/webapp/api-docs/lib/marked.js:966-1066 | every kind of leaf goes to its own method of the renderer, inline text lexed, each table cell with its own alignment |
| MarkedParser.TextsAre | ComponentRegistry/src/main/webapp/api-docs/lib/marked.js:950-1066 | a text is a paragraph except in a tight item, and texts that follow each other are lines of one text |
| MarkedParser.Parser.BodyUntil | ComponentRegistry/src/main/webapp/api-docs/lib/marked.js:1018-1056 | a body is consumed up to its own end token, whatever is nested in it, and is rendered as the fold of its blocks |
| MarkedParser.Parser.ItemsUntil | ComponentRegistry/src/main/webapp/api-docs/lib/marked.js:1027-1035 | a list is consumed up to its own end token and is the fold of its items |
| MarkedParser.Parser.Tok | ComponentRegistry/src/main/webapp/api-docs/lib/marked.js:964-1070 | consumes exactly the tokens of one block, or one run of texts, and returns its rendering |
| MarkedParser.Parser.Parse | ComponentRegistry/src/main/webapp/api-docs/lib/marked.js:918-928 | every token is consumed, none is asked for past the end, and the result is the fold of the block tree |
| SwaggerModels.SignaturePrintsReachableOnce | ComponentRegistry/src/main/webapp/api-docs/lib/swagger.js:567-591 | on any finite graph of models, cyclic or not, the signature prints every model reachable from the root, itself included, exactly once |
| SwaggerModels.VisitFresh | ComponentRegistry/src/main/webapp/api-docs/lib/swagger.js:578-588 | a visit prints no model twice and none that is on the list |
| SwaggerModels.VisitClosed | ComponentRegistry/src/main/webapp/api-docs/lib/swagger.js:578-588 | whatever a printed model refers to is printed or was on the list |
| SwaggerModels.VisitReachable | ComponentRegistry/src/main/webapp/api-docs/lib/swagger.js:578-588 | nothing unreachable is printed |
| SwaggerModels.FirstReferenceNext | ComponentRegistry/src/main/webapp/api-docs/lib/swagger.js:578-588 | the model of the first reference that is not on the list is printed next, with what it leads to, before the later references |
| SwaggerModels.SampleNeverNests | ComponentRegistry/src/main/webapp/api-docs/lib/swagger.js:593-608 | no model is expanded inside an expansion of itself |
| SwaggerModels.SampleIs | ComponentRegistry/src/main/webapp/api-docs/lib/swagger.js:593-658 | a sample has every property with its own value, in which a reference is expanded if and only if its model is not being expanded around it |
| SwaggerModels.SampleUnique | ComponentRegistry/src/main/webapp/api-docs/lib/swagger.js:593-658 | there is only one such sample |
| SwaggerModels.Registry.OwnSignature | ComponentRegistry/src/main/webapp/api-docs/lib/swagger.js:568-577 | the section of one model |
| SwaggerModels.SectionHolds | ComponentRegistry/src/main/webapp/api-docs/lib/swagger.js:568-577 | every property of the model stands in its section, in order |
| SwaggerModels.Registry.GetMockSignature | ComponentRegistry/src/main/webapp/api-docs/lib/swagger.js:567-591 | terminates; the text is the sections of the models in visiting order and the shared list has grown by exactly these |
| SwaggerModels.Registry.CreateJSONSample | ComponentRegistry/src/main/webapp/api-docs/lib/swagger.js:593-608 | terminates and leaves modelsToIgnore as it was found |
| SwaggerModels.Registry.GetSampleValue | ComponentRegistry/src/main/webapp/api-docs/lib/swagger.js:642-658 | a reference not on the list is expanded, anything else is the property's own sample, and a collection is wrapped once |
| PathNormalize.BackwardsIsForwards | ComponentRegistry/src/main/webapp/api-docs/lib/shred.bundle.js:218-242 | counting steps up from the back is the forward stack machine for the two dot names |
| PathNormalize.NormalizedTwice | ComponentRegistry/src/main/webapp/api-docs/lib/shred.bundle.js:218-242 | the result is some steps up followed by ordinary names, and normalising it again changes nothing, with and without allowAboveRoot |
| PathNormalize.SamePlace | ComponentRegistry/src/main/webapp/api-docs/lib/shred.bundle.js:218-242 | from every directory the remaining parts lead where the parts led; without steps up in front, from the root |
| PathNormalize.PathParts.Remove | ComponentRegistry/src/main/webapp/api-docs/lib/shred.bundle.js:223-230 | splice(i, 1) |
| PathNormalize.PathParts.NormalizeArray | ComponentRegistry/src/main/webapp/api-docs/lib/shred.bundle.js:218-242 | the in-place loop, starting one past the end, leaves the result of the forward machine |
| PathNormalize.PathParts.RestoreUps | ComponentRegistry/src/main/webapp/api-docs/lib/shred.bundle.js:235-239 | the steps up come back in front |
| PathNormalize.ComponentsOfJoin | ComponentRegistry/src/main/webapp/api-docs/lib/shred.bundle.js:286-288 | splitting what was joined gives the pieces back |
| PathNormalize.NormalizeIs | ComponentRegistry/src/main/webapp/api-docs/lib/shred.bundle.js:281-298 | absoluteness and the trailing slash are kept around the remaining parts, and an empty result is the root or the current directory |
| PathNormalize.NormalizeTwice | ComponentRegistry/src/main/webapp/api-docs/lib/shred.bundle.js:281-298 | normalising a path a second time changes nothing, for every string |
| PathNormalize.NormalizeSamePlace | ComponentRegistry/src/main/webapp/api-docs/lib/shred.bundle.js:281-298 | a normalised path leads to the same place from every working directory, and is absolute if and only if the path is |
| TableCodec.UnitRoundTrip | ComponentRegistry/src/main/webapp/api-docs/lib/shred.bundle.js:2352-2387 | a character comes back by itself exactly when it is ASCII or its code is 0x8000 or more; otherwise another comes back |
| TableCodec.RoundTripIff | ComponentRegistry/src/main/webapp/api-docs/lib/shred.bundle.js:2340-2388 | decoding an encoded string gives it back if and only if all its characters are of that kind |
| TableCodec.EncodeLength | ComponentRegistry/src/main/webapp/api-docs/lib/shred.bundle.js:2343-2347 | the sizing pass counts exactly the bytes that are stored |
| TableCodec.Codec.constructor | ComponentRegistry/src/main/webapp/api-docs/lib/shred.bundle.js:2333-2338 | the reverse table maps each character to a code that maps back to it |
| TableCodec.Codec.ToEncoding | ComponentRegistry/src/main/webapp/api-docs/lib/shred.bundle.js:2341-2363 | every write is inside the buffer, which ends up full and holds the encoding |
| TableCodec.Codec.CountChars | ComponentRegistry/src/main/webapp/api-docs/lib/shred.bundle.js:2366-2371 | the sizing pass of decoding counts the decoded characters |
| TableCodec.Codec.ReadUnit | ComponentRegistry/src/main/webapp/api-docs/lib/shred.bundle.js:2376-2382 | reads the one or two bytes of a character and finds the next one |
| TableCodec.Codec.FromEncoding | ComponentRegistry/src/main/webapp/api-docs/lib/shred.bundle.js:2364-2387 | every write is inside the buffer, which ends up full and reads back as the decoded characters |
| TableCodec.Ucs2RoundTrip | ComponentRegistry/src/main/webapp/api-docs/lib/shred.bundle.js:2383-2386 | the two bytes stored for each character read back as it |
| Decimal.DecPads | ComponentRegistry/src/main/webapp/api-docs/lib/es5-shim.js:1629 | zeros in front of a short numeral give the fixed-width one |
| Decimal.DecSplits | ComponentRegistry/src/main/webapp/api-docs/lib/es5-shim.js:1620-1634 | a long numeral is the numeral of its quotient followed by the digits of its remainder |
| Decimal.ValDec | ComponentRegistry/src/main/webapp/api-docs/lib/es5-shim.js:1625 | a numeral reads back as its number |

## Left out

- Rounding of IEEE doubles. `ToFixedHelpers` and `ToFixed` compute with exact reals: scaling by powers of two is exact in doubles, and so are limb products, sums and quotients, which stay within 2^53 (`ToFixedHelpers.TotalsExact` and `ToFixedHelpers.DividendsExact`). Arguments at or below 2^-69 and above 10^-21 carry a fraction in the lowest limb, which doubles hold only approximately.
- ToFixed.ToFixed: the text of numbers of magnitude 10^21 and beyond is the native number-to-string conversion, a value of its own in the result.
- IsoDate.ParseMeaning: the fraction of a second is read as an exact decimal, where the code multiplies doubles; local time conversion is a function parameter, and strings that are not ISO dates are delegated to the native parser.
- The native UTC getters are the definitions of sections 15.9.1.2 to 15.9.1.10 of ECMA-262 5.1.
- The date constructor shim, time zone detection and every other feature test of the shims.
- SparseSplice.Sparse.Splice: setters and frozen objects are not modelled; an absent delete count is the number 0 that `ToInteger` makes of it.
- SpecExpander.Expander.ExpandNestedComponent: after a recursion exception the caller's list holds the nodes it held, but what has been rewritten inside these nodes is not stated; log messages are left out, and the two registries behind the fetch are one map.
- HandlebarsOutput.CompileCorrect: the options `strict`, `assumeObjects` and `compat` are not modelled, helpers are functions of their arguments without side effects, and what decorators do at run-time is not modelled.
- HandlebarsOutput.RunBlock: an ambiguous block without program and inverse is not covered; `HandlebarsLimits.BlockPrintsIff` shows that it does not print its denotation.
- HandlebarsOutput.RunPartial: under `explicitPartialContext` a partial without parameters is covered when it is static; `HandlebarsLimits.ExplicitContextIff` covers the other.
- Block parameters at run-time: the forwarding of their values through shared programs, and the fields `data` and `blockParams` of call options.
- HandlebarsLimits.HashHoldsKeysIff: the order in which a JavaScript object lists keys that look like indices is not modelled; objects are maps.
- MergeNumbers.MergedPrintsChunksIff: chunks are strings, integers and booleans; fractions and objects with a `valueOf` are left out.
- Source maps, source locations, aliases and registers of the code generator, and the whitespace of the generated text.
- Precompiled template specifications, their revision check and the run-time's caching of child programs.
- HandlebarsDepths.JavaScriptCompiler.Compile: of the 1.0.0 generator the context names, the parameters and the expressions on one stack are modelled, not its two stacks and the text it writes; in stringParams mode the kinds and contexts of hash values go with the values.
- The Jison parsers of both Handlebars versions and the whitespace control of standalone tags: templates start as syntax trees.
- StreamMerge.Merge: tag names are lower-cased in ASCII only, node names and attribute names hold no angle brackets, and the two streams share no node.
- MarkedLexer.Lexer.Tokenize: the regular expressions are given as functions, each consuming at least one character when it matches; the outdenting and splitting they do is part of the match.
- MarkedParser.Parser.Parse: the inline lexer and the renderer are functions of their arguments.
- SwaggerModels.Registry.OwnSignature: the text of a property is given with it.
- SwaggerModels.Registry.CreateJSONSample: a sample lists the fields in order and does not merge properties of one name; the value of a property without a model, and preset samples, are opaque.
- PathNormalize.NormalizeIs: `resolve` and `join` of the same file, which call the same loop, are not modelled.
- TableCodec.RoundTripIff: the table is a double-byte table whose entries are characters; single-byte codecs and the choice of a codec by name are left out.
- Wicket pages other than the counter, persistence, REST resources, XSLT conversion, schema validation and access rights: user interface, storage and foreign calls.
- HTTP clients, cookies, OAuth windows and the other minified libraries.
