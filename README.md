# Parameter resolution and formula editing, modelled in Dafny

This project models the core of a parameter-configuration tool. Parameters
are defined in a schema: each has a default, which may be a formula written
in parentheses, plus an optional condition, type, range and options. The
front end resolves the schema into values in three places:

- the live form (`DynamicUi`);
- the read-only registry table (`ParameterRegistry`);
- the formula editor with autocompletion (`FormulaEditor`).

It also renders one input per type (`DynamicField`) and lists the stored
groups with search, expansion and editing (`ParameterList`). The back end
edits the stored configuration (`Crud`).

Modules:

- `Wrappers`: the `Option` type.
- `Text`: the string primitives the components call. These are `trim`,
  `toLowerCase` (ASCII letters), `includes`, `substring` with clamped and
  swapped bounds, `join`, and the identifier classes of
  `[a-zA-Z_][a-zA-Z0-9_]*`.
- `Js`: JavaScript values, truthiness, `===`, `<`, `String(v)` and
  `parseInt`, over exact numbers with `NaN` and the infinities.
  - What the model does not define is passed in as an `Engine` value. That
    covers running user-written source (`new Function(...keys, 'return ' + src)`),
    `String` of a non-integer number, `parseFloat`, `ToNumber` of a string,
    `JSON.parse` and `toFixed(4)`.
  - Every property below holds for every engine.
- `Schema`: the parsed parameter object. It is the key order (`Object.keys`)
  and a map from key to definition, with distinct keys, each listed and each
  defined. A key whose definition is `null` is recorded as such; every
  component that reads an attribute of it throws.
- `DynamicField`: type normalisation, the change handler's coercion, range
  checking, and the widget chosen for a type.
- `DynamicUi`: `getValue`, `evaluateExpression` with ten-decimal rounding, the
  two context passes, visibility, the rows, and the component's state
  (`values`, reset).
- `ParameterRegistry`: the registry's own `evaluateExpression`, its two
  context passes, which write `0` on failure and do not round, and the
  value formatting with the `\.?0+$` strip.
- `FormulaEditor`: the word at the cursor, the suggestion filter, the splice
  on selection, the keyboard state machine, and `evaluateFormula`.
  - `evaluateFormula` covers unknown-name reporting, the context of numeric
    defaults, `usedVariables` by first occurrence, and the messages.
  - It also covers the input style.
- `Config`: stored groups and parameters, shared by the two modules below.
- `ParameterList`: the search filter, the group filter, hiding of empty
  groups, the expanded-group set, and the single edit slot.
- `Crud`: `update_parameter`, `delete_parameter` and `add_parameter` on the
  loaded configuration, with the version bump. Each is a method with loops
  proved against a specification function.

The two context passes of the form and of the registry are loops over
`Object.entries`. They are methods, each proved equal to a fold
(`DynamicUi.Passed`, `ParameterRegistry.Filled`). The properties are lemmas
about the fold: what each formula sees, what it leaves behind, and which
entries are settled.

Behaviours worth noting:

- A failed formula leaves `null` in the form's context (`DynamicUI.jsx:98`).
  The registry writes `0` in the same case (`ParameterRegistry.jsx:46`).
- The form's second pass evaluates any raw value that starts with `(`,
  including a user override typed that way (`DynamicUI.jsx:93-94`).
- The form rounds results to ten decimals (`DynamicUI.jsx:64`). The registry
  shows them as returned (`ParameterRegistry.jsx:25`).
- A `select` or `string` field without options falls through to the `date`
  input (see Findings).

## Model

| member | source | states |
|---|---|---|
| Text.TrimIdempotent | frontend/src/components/DynamicUI.jsx:45 | Trimming an already trimmed string changes nothing. |
| Text.TrimHasNoEdgeSpace | frontend/src/components/FormulaEditor.jsx:101 | A trimmed string is empty or starts and ends with a non-space character, so `!text.trim()` means the text is all white space. |
| Text.TrimPadded | frontend/src/components/ParameterRegistry.jsx:36 | Surrounding white space does not change what `trim` returns. |
| Text.ContainsIffOccurs | frontend/src/components/ParameterList.jsx:53-56 | `includes` finds `t` exactly when `t` occurs at some position of `s`. |
| Js.ParseInt | frontend/src/components/DynamicField.jsx:10-11 | `parseInt(text, 10)` gives `NaN` or an integer. |
| Js.ParseIntOfIntegerText | frontend/src/components/DynamicField.jsx:10-11 | `parseInt` reads back the decimal text of any integer, whatever non-digit text follows. |
| Js.ParseIntWithoutDigits | frontend/src/components/DynamicField.jsx:10-11 | Text that does not start (after space and sign) with a digit parses to `NaN`. |
| Js.NullBelowPositive | frontend/src/components/DynamicField.jsx:59 | `null` compares as 0: below every positive number and never above one. |
| Js.NaNIsUnordered | frontend/src/components/DynamicField.jsx:59 | `NaN` is neither below nor above any value. |
| Js.NumberLessIsStrict | frontend/src/components/DynamicField.jsx:59 | `<` on numbers is irreflexive, asymmetric and transitive. |
| DynamicField.NormalizeType | frontend/src/components/DynamicField.jsx:22 | The normalised type is never empty and is already lower case; an empty type becomes `string`. |
| DynamicField.NormalizeTypeIdempotent | frontend/src/components/DynamicField.jsx:22 | Normalising twice is normalising once. |
| DynamicField.Coerce | frontend/src/components/DynamicField.jsx:4-20 | Integer fields hand back `parseInt`, number/double fields `parseFloat`, boolean fields `checked`, every other type the raw text. |
| DynamicField.IntegerFieldReadsInteger | frontend/src/components/DynamicField.jsx:10-11 | Typing an integer into an integer field hands back that integer. |
| DynamicField.IntegerFieldWithoutDigitsIsNaN | frontend/src/components/DynamicField.jsx:10-11 | An integer field with no leading digits hands back `NaN`, not 0. |
| DynamicField.RangeOfNumbers | frontend/src/components/DynamicField.jsx:57-60 | With `Range: [lo, hi]` a finite value is out of range iff it lies outside `[lo, hi]`; the error flag is that or the formula-invalid flag. |
| DynamicField.RangeExample | frontend/src/components/DynamicField.jsx:57-59 | With `Range: [1, 100]`, 150 is flagged and 50 is not. |
| DynamicField.NullIsBelowPositiveRange | frontend/src/components/DynamicField.jsx:57-59 | A failed formula's `null` is flagged out of range whenever the range starts above 0. |
| DynamicField.SegmentsFor | frontend/src/components/DynamicField.jsx:29-33 | One segment per option, in order; a segment is active iff the value `===` its option. |
| DynamicField.Render | frontend/src/components/DynamicField.jsx:24-131 | The widget for each normalised type, including the `select`/`string` fall-through into `date` when there are no options. The render throws exactly when a `group` field, or a `select`/`string` field with truthy options, has options that are not an array. A numeric field gets the `Range` or `min`/`max` bounds, step 1 for `integer` and 0.1 otherwise, and the error flag. |
| DynamicField.StringWithoutOptionsIsDate | frontend/src/components/DynamicField.jsx:80-103 | A `String` field without options renders a date input. |
| DynamicField.IntendedRender | frontend/src/components/DynamicField.jsx:80-94 | The corrected dispatch: `select`/`string` without options renders a text input, otherwise as `Render`. |
| DynamicField.ClickedSegmentIsActive | frontend/src/components/DynamicField.jsx:29-33 | Once the clicked option becomes the value, its segment is active. |
| DynamicField.JsonChange | frontend/src/components/DynamicField.jsx:109-116 | The JSON area hands on the parsed value, or the raw text when parsing fails. |
| DynamicUi.Round10 | frontend/src/components/DynamicUI.jsx:64 | Rounding keeps finite numbers finite and leaves the infinities alone. |
| DynamicUi.Round10Nearest | frontend/src/components/DynamicUI.jsx:64 | The rounded value is a whole number of ten-billionths within half of one of the input. |
| DynamicUi.Round10Idempotent | frontend/src/components/DynamicUI.jsx:64 | Rounding a rounded value changes nothing. |
| DynamicUi.Round10KeepsIntegers | frontend/src/components/DynamicUI.jsx:64 | Integers come back unchanged. |
| DynamicUi.EvaluateExpressionShape | frontend/src/components/DynamicUI.jsx:41-71 | A value that is not a wrapped formula string passes through; a formula gives a valid number or one of the two error messages. |
| DynamicUi.RunFormula | frontend/src/components/DynamicUI.jsx:50-70 | A kept result is a number other than `NaN`; any failure carries the invalid-number message or the formula-error prefix. |
| DynamicUi.EvaluateFormulaOutcome | frontend/src/components/DynamicUI.jsx:45-70 | A valid number is returned rounded, any other returned value is the invalid-number error, and a throw is the formula error with its message. |
| DynamicUi.GetValue | frontend/src/components/DynamicUI.jsx:73-78 | Never `undefined`: the override when defined, else `Default` when defined, else `''`. |
| DynamicUi.Seeded | frontend/src/components/DynamicUI.jsx:81-89 | After the first pass every parameter, and nothing else, has an entry. |
| DynamicUi.SeedContext | frontend/src/components/DynamicUI.jsx:83-89 | The first-pass loop stores `null` for each `(` value and the raw value otherwise, for every parameter. |
| DynamicUi.Record | frontend/src/components/DynamicUI.jsx:96-103 | A failure writes `null` and the error for that key; a success writes the value and no error. |
| DynamicUi.FormulaStepFrame | frontend/src/components/DynamicUI.jsx:92-105 | One step of the second pass leaves every other key's entry and error untouched. |
| DynamicUi.Passed | frontend/src/components/DynamicUI.jsx:92-105 | The second pass keeps every starting entry and adds only parameter keys. |
| DynamicUi.Resolve | frontend/src/components/DynamicUI.jsx:81-105 | After both passes the context holds exactly the parameter keys. |
| DynamicUi.EvaluateFormulas | frontend/src/components/DynamicUI.jsx:92-105 | The second-pass loop computes the fold `Passed` over all keys. |
| DynamicUi.EvaluateEntry | frontend/src/components/DynamicUI.jsx:93-104 | The loop body performs exactly one step of the fold. |
| DynamicUi.BuildContext | frontend/src/components/DynamicUI.jsx:81-105 | Both passes give the resolved context; its keys are the parameters, and every error belongs to a `(` value whose entry is `null`. |
| DynamicUi.PassedErrorsAreFormulas | frontend/src/components/DynamicUI.jsx:94-99 | Errors are recorded only for parameters whose raw value starts with `(`. |
| DynamicUi.PassedNotYet | frontend/src/components/DynamicUI.jsx:92-105 | A key the second pass has not reached still holds its first-pass entry and has no error. |
| DynamicUi.PassedSettled | frontend/src/components/DynamicUI.jsx:92-105 | Once visited, a key's entry and error never change again. |
| DynamicUi.FormulaSees | frontend/src/components/DynamicUI.jsx:86-105 | A formula sees the final values of the keys before it and the first-pass values (`null` for formulas) of the keys from it on. |
| DynamicUi.FormulaResult | frontend/src/components/DynamicUI.jsx:94-103 | A formula's final entry is its evaluation in the context it saw (`null` on failure), with an error iff it failed. |
| DynamicUi.PlainValueKept | frontend/src/components/DynamicUI.jsx:86-94 | A value not starting with `(` ends as its raw value, with no error. |
| DynamicUi.ErrorsMeanNull | frontend/src/components/DynamicUI.jsx:96-103 | A key has an error iff its raw value starts with `(` and its final entry is `null`. |
| DynamicUi.ResolvedDefined | frontend/src/components/DynamicUI.jsx:138 | No resolved entry is `undefined`, so a row always shows its context entry. |
| DynamicUi.UnclosedFormulaKept | frontend/src/components/DynamicUI.jsx:45-48 | A `(` value that, trimmed, does not end in `)` is kept as the raw string with no error. |
| DynamicUi.IndentedFormulaNotEvaluated | frontend/src/components/DynamicUI.jsx:86-94 | A formula written after a space is not evaluated by the form. |
| DynamicUi.OverrideSuppressesFormula | frontend/src/components/DynamicUI.jsx:73-94 | An override that is not a `(` string replaces the formula's value, with no error. |
| DynamicUi.ChangeTouchesOneKey | frontend/src/components/DynamicUI.jsx:33-38 | A value change alters the raw value of that key alone. |
| DynamicUi.ResetRestoresDefaults | frontend/src/components/DynamicUI.jsx:73-78 | With no overrides every raw value is the `Default`, or `''` without one. |
| DynamicUi.VisibilityFailsOpen | frontend/src/components/DynamicUI.jsx:108-120 | A row is hidden iff its condition is present and runs to a falsy value; a throw shows the row. |
| DynamicUi.FieldType | frontend/src/components/DynamicUI.jsx:190 | For a `Type` that `?.toLowerCase()` can read (absent, `null` or a string), the field type is never empty and already lower case, and a non-empty string type gives its lower-cased text. |
| DynamicUi.RowsAreVisibleParameters | frontend/src/components/DynamicUI.jsx:135-147 | When no row callback throws, the rows are exactly `RowFor` of each visible key, in key order: one per visible key and none for a hidden one. |
| DynamicUi.SchemaRows | frontend/src/components/DynamicUI.jsx:135-147 | The shown keys are an ordered sub-sequence of the key order, without repeats, holding exactly the defined keys whose condition shows them; the rows are their rows, in that order. |
| DynamicUi.RenderCrashes | frontend/src/components/DynamicUI.jsx:135-212 | A non-empty form crashes iff some key is defined as `null`, or some shown parameter's `Type` is not a string, `null` or absent, or some shown parameter's field calls `map` on options that are not an array, or some shown parameter's truthy `Unit` is a child React refuses (a plain object, or an array holding one). A hidden parameter's `Type`, `Options` and `Unit` are never read. |
| DynamicUi.RowThrowCrashes | frontend/src/components/DynamicUI.jsx:135-196 | One row that throws takes the whole form down. |
| DynamicUi.NumericOptionsCrash | frontend/src/components/DynamicUI.jsx:188-196 | A shown `group` parameter whose `Options` is a number crashes the form. |
| DynamicUi.FormFieldsRender | frontend/src/components/DynamicUI.jsx:135-212 | When the form renders, none of its fields throws and every unit it shows is a valid child. |
| DynamicUi.ObjectUnitCrashes | frontend/src/components/DynamicUI.jsx:203-212 | A shown parameter whose `Unit` is a mapping, such as `{si: "V"}`, crashes the form. |
| DynamicUi.NumericTypeCrashes | frontend/src/components/DynamicUI.jsx:190 | A numeric `Type` on a shown parameter crashes the form. |
| DynamicUi.RowShowsResolvedEntry | frontend/src/components/DynamicUI.jsx:136-144 | A row shows its resolved entry and is marked invalid iff its formula recorded an error. |
| DynamicUi.SeededByDefaults | frontend/src/components/DynamicUI.jsx:83-89 | The first pass depends only on the keys and defaults. |
| DynamicUi.PassedByDefaults | frontend/src/components/DynamicUI.jsx:92-105 | The second pass depends only on the order and the defaults. |
| DynamicUi.ContextIgnoresConditions | frontend/src/components/DynamicUI.jsx:81-105 | Conditions, types and other attributes never change the context, so hiding a row changes no value. |
| DynamicUi.DynamicUi.constructor | frontend/src/components/DynamicUI.jsx:5-6 | The form starts with no overrides. |
| DynamicUi.DynamicUi.SetParameters | frontend/src/components/DynamicUI.jsx:5-6 | A new schema keeps the overrides. |
| DynamicUi.DynamicUi.HandleValueChange | frontend/src/components/DynamicUI.jsx:33-38 | Sets the override for one key and nothing else. |
| DynamicUi.DynamicUi.Reset | frontend/src/components/DynamicUI.jsx:329-330 | Clears all overrides. |
| DynamicUi.DynamicUi.Render | frontend/src/components/DynamicUI.jsx:14-212 | A placeholder for an empty schema, `Crashed` when rendering a row, its field or its unit throws, else the rows over the resolved context, each with its truthy `Unit`. |
| ParameterRegistry.RunFormula | frontend/src/components/ParameterRegistry.jsx:19-28 | A valid number is kept exactly; any other result or a throw gives `null`. |
| ParameterRegistry.EvaluateExpressionShape | frontend/src/components/ParameterRegistry.jsx:13-29 | Non-formulas pass through; a formula gives its unrounded number or `null`. |
| ParameterRegistry.RegistryDoesNotRound | frontend/src/components/ParameterRegistry.jsx:24-25 | For the same run the registry shows the exact result where the form shows it rounded. |
| ParameterRegistry.Seeded | frontend/src/components/ParameterRegistry.jsx:32-39 | The first pass gives entries to the plain defaults only. |
| ParameterRegistry.SeedContext | frontend/src/components/ParameterRegistry.jsx:33-39 | The first-pass loop throws iff some key is defined as `null` (reading its `Default`); otherwise it computes `Seeded`. |
| ParameterRegistry.FillFormulas | frontend/src/components/ParameterRegistry.jsx:42-48 | The second-pass loop computes the fold `Filled`. |
| ParameterRegistry.FillEntry | frontend/src/components/ParameterRegistry.jsx:43-47 | The loop body performs one step of the fold. |
| ParameterRegistry.BuildContext | frontend/src/components/ParameterRegistry.jsx:32-48 | Throws iff some key is defined as `null`; otherwise both passes give the resolved context, whose keys are exactly the parameters. |
| ParameterRegistry.FillStepFrame | frontend/src/components/ParameterRegistry.jsx:42-48 | A step leaves every other key alone. |
| ParameterRegistry.FillStepStores | frontend/src/components/ParameterRegistry.jsx:44-46 | A formula step always writes its key. |
| ParameterRegistry.FilledHasVisited | frontend/src/components/ParameterRegistry.jsx:42-48 | Every visited formula has an entry. |
| ParameterRegistry.FilledWithin | frontend/src/components/ParameterRegistry.jsx:42-48 | The second pass adds only parameter keys. |
| ParameterRegistry.FilledNotYet | frontend/src/components/ParameterRegistry.jsx:42-48 | An unvisited key has its starting entry, or none. |
| ParameterRegistry.FilledSettled | frontend/src/components/ParameterRegistry.jsx:42-48 | A visited key's entry never changes again. |
| ParameterRegistry.ResolvedKeys | frontend/src/components/ParameterRegistry.jsx:32-48 | After both passes the keys are exactly the parameters. |
| ParameterRegistry.PlainDefaultKept | frontend/src/components/ParameterRegistry.jsx:36-37 | A plain default ends as a number or boolean kept as is, anything else as 0. |
| ParameterRegistry.FormulaSees | frontend/src/components/ParameterRegistry.jsx:36-48 | A formula sees the final entries of earlier formulas, the plain entries, and no entry for later formulas. |
| ParameterRegistry.FormulaResult | frontend/src/components/ParameterRegistry.jsx:44-46 | A formula's final entry is its result in the context it saw, or 0 for `null`. |
| ParameterRegistry.ResolvedEntries | frontend/src/components/ParameterRegistry.jsx:36-46 | No entry is `null` or `undefined`. Plain defaults become numbers or booleans. Wrapped formulas become valid numbers. Unclosed ones keep their string. |
| ParameterRegistry.UnclosedFormulaStored | frontend/src/components/ParameterRegistry.jsx:15-17 | A trimmed `(` value without `)` is stored as its raw string. |
| ParameterRegistry.IndentedFormulaDiffers | frontend/src/components/ParameterRegistry.jsx:36-44 | A formula after a leading space is a number in the registry but stays the raw string in the form. |
| ParameterRegistry.FormulaStringChoice | frontend/src/components/ParameterRegistry.jsx:104-106 | The formula shown is `Formula` when set, else a `(` default; it is truthy iff the row is a formula row. |
| ParameterRegistry.SourceLabel | frontend/src/components/ParameterRegistry.jsx:146 | `CALCULATED` iff `IsCalculated` is truthy, else `YAML`. |
| ParameterRegistry.StripZerosIsLeftmostMatch | frontend/src/components/ParameterRegistry.jsx:209 | The strip removes the leftmost suffix matching `\.?0+$`, and nothing when none matches. |
| ParameterRegistry.StripFixed | frontend/src/components/ParameterRegistry.jsx:209 | On `toFixed(4)` output the strip drops trailing fraction zeros, and the dot when no digit remains, never touching the integer part. |
| ParameterRegistry.FormatNumericCases | frontend/src/components/ParameterRegistry.jsx:206-210 | Non-numbers pass through, integers show their digits, others the stripped `toFixed(4)`. |
| ParameterRegistry.NearIntegerShownWhole | frontend/src/components/ParameterRegistry.jsx:208-209 | A number whose `toFixed(4)` is an integer's text with zero fraction shows as that integer's text. |
| ParameterRegistry.FormatValue | frontend/src/components/ParameterRegistry.jsx:172-203 | A formula cell when a formula string is set, a True/False cell for booleans, else the formatted value with its unit. |
| ParameterRegistry.RowsShowResolvedEntries | frontend/src/components/ParameterRegistry.jsx:102-121 | One row per parameter, in order, showing its resolved entry, with booleans as True/False; the table shows these rows unless the render crashes. |
| ParameterRegistry.RegistryCrashes | frontend/src/components/ParameterRegistry.jsx:34-175 | The registry crashes iff some key is defined as `null` or some parameter has a truthy `Formula` that is not a string; otherwise it shows one row per parameter, in order. |
| ParameterRegistry.BrokenRows | frontend/src/components/ParameterRegistry.jsx:102-175 | Some row's cell throws iff some parameter's `Formula` is truthy and not a string, whatever the context. |
| FormulaEditor.WordBeforeIsLongestIdentifierSuffix | frontend/src/components/FormulaEditor.jsx:18-22 | The current word is a suffix of the text before the cursor, an identifier or empty, and no longer suffix is an identifier. |
| FormulaEditor.WordBeforeUnique | frontend/src/components/FormulaEditor.jsx:20-21 | Those three properties determine the word. |
| FormulaEditor.NoWordBeforeWord | frontend/src/components/FormulaEditor.jsx:58-59 | The text before the word has no word of its own at its end. |
| FormulaEditor.WordAfterNoWord | frontend/src/components/FormulaEditor.jsx:58-63 | An identifier inserted after such text is the whole current word. |
| FormulaEditor.SuggestIsOrderedFilter | frontend/src/components/FormulaEditor.jsx:37-39 | Suggestions are exactly the keys whose lower-case form starts with the lower-cased word, in key order. |
| FormulaEditor.MatchingIgnoresCase | frontend/src/components/FormulaEditor.jsx:38 | Matching is insensitive to ASCII case on both sides. |
| FormulaEditor.SpliceReplacesWord | frontend/src/components/FormulaEditor.jsx:57-63 | The text becomes before-word + suggestion + after-cursor; the caret is just after the suggestion, where an identifier suggestion is the new current word. |
| FormulaEditor.TokensAreMaximalIdentifiers | frontend/src/components/FormulaEditor.jsx:115 | Every token is an identifier, and an identifier text is its own single token. |
| FormulaEditor.TokensSplit | frontend/src/components/FormulaEditor.jsx:115 | No token runs across a character that cannot continue an identifier: the tokens of `a + [c] + b` are those of `a` followed by those of `b`. |
| FormulaEditor.WholeIdentifierIsAToken | frontend/src/components/FormulaEditor.jsx:115 | An identifier followed by a separator is found whole, as one token, so every token runs as far as it can. |
| FormulaEditor.NoTokensIffNoIdentStart | frontend/src/components/FormulaEditor.jsx:115 | The text has no token iff none of its characters can start an identifier. |
| FormulaEditor.ExponentIsAToken | frontend/src/components/FormulaEditor.jsx:115 | In `1e5` the token `e5` is found. |
| FormulaEditor.DigitsAreSkipped | frontend/src/components/FormulaEditor.jsx:115 | Leading digits start no token and join none: the tokens are those of the text after them. |
| FormulaEditor.DigitsThenIdentifier | frontend/src/components/FormulaEditor.jsx:115 | Digits followed by an identifier, such as `2x`, yield exactly that identifier. |
| FormulaEditor.UnknownMembers | frontend/src/components/FormulaEditor.jsx:116 | A name is reported iff it is a token and not a key. |
| FormulaEditor.UnknownCounts | frontend/src/components/FormulaEditor.jsx:116 | Each unknown token is reported as often as it occurs. |
| FormulaEditor.FirstIndex | frontend/src/components/FormulaEditor.jsx:139 | `indexOf` returns a position holding the element. |
| FormulaEditor.FirstIndexIsFirst | frontend/src/components/FormulaEditor.jsx:139 | No earlier position holds it. |
| FormulaEditor.FirstOccurrencesSpec | frontend/src/components/FormulaEditor.jsx:139 | `usedVariables` holds every token once, ordered by first occurrence. |
| FormulaEditor.EditorContext | frontend/src/components/FormulaEditor.jsx:125-129 | The context has exactly the parameter keys. |
| FormulaEditor.EditorContextEntries | frontend/src/components/FormulaEditor.jsx:125-129 | Each entry is the numeric default, else 0. |
| FormulaEditor.BuildContext | frontend/src/components/FormulaEditor.jsx:125-129 | The `forEach` throws iff some key is defined as `null`; otherwise it builds `EditorContext`. |
| FormulaEditor.EvaluateSetsExactlyOne | frontend/src/components/FormulaEditor.jsx:100-151 | A blank formula clears both the error and the result; otherwise exactly one of them is set. |
| FormulaEditor.UnknownNamesStopEvaluation | frontend/src/components/FormulaEditor.jsx:115-122 | With unknown names the error lists them all and the formula is not run. |
| FormulaEditor.EvaluationResult | frontend/src/components/FormulaEditor.jsx:125-142 | A result comes only from a schema without `null` definitions; it is a valid number returned in the numeric-default context, and its used variables are known keys, by first occurrence. |
| FormulaEditor.EvaluationErrors | frontend/src/components/FormulaEditor.jsx:125-150 | A `null` definition gives the syntax-error prefix with the `TypeError` message; otherwise a non-number or `NaN` gives the invalid-number message, and a throw gives the syntax-error prefix and message. |
| FormulaEditor.StyleFollowsEvaluation | frontend/src/components/FormulaEditor.jsx:154-158 | After an evaluation the input is red iff there is an error, green iff a result, plain iff the text is blank. |
| FormulaEditor.MoveSelectionStaysInList | frontend/src/components/FormulaEditor.jsx:83-90 | The arrows keep the index inside the list, stepping by one and stopping at the ends. |
| FormulaEditor.Editor.constructor | frontend/src/components/FormulaEditor.jsx:4-10 | Initial state: empty text, cursor 0, no list, no error, no result. |
| FormulaEditor.Editor.EvaluateFormula | frontend/src/components/FormulaEditor.jsx:100-151 | Sets the error and result to `Evaluate`'s and changes nothing else. |
| FormulaEditor.Editor.HandleFormulaChange | frontend/src/components/FormulaEditor.jsx:25-54 | Stores text and cursor; shows the list iff the word is non-empty and matches, then with index 0; evaluates the new text. |
| FormulaEditor.Editor.SelectSuggestion | frontend/src/components/FormulaEditor.jsx:57-77 | Splices the suggestion in, closes the list, evaluates, returns the caret, and leaves the stored cursor as it was. |
| FormulaEditor.Editor.HandleKeyDown | frontend/src/components/FormulaEditor.jsx:80-97 | Nothing while the list is hidden. Arrows move the index and change nothing else. Enter splices the selected suggestion in, closes the list and evaluates, keeping the list and index. Escape only closes the list. The cursor never changes and the selection stays in range. |
| FormulaEditor.Editor.HoverSuggestion | frontend/src/components/FormulaEditor.jsx:256 | Hovering an entry of the shown list makes it the selection and changes nothing else. |
| ParameterList.KeepMatchingIsOrderedFilter | frontend/src/components/ParameterList.jsx:52-57 | Keeps exactly the matching parameters, in order. |
| ParameterList.FilterParametersSpec | frontend/src/components/ParameterList.jsx:49-58 | An empty search is the identity; otherwise exactly the matching parameters, in order. |
| ParameterList.KeyMatchIsSubstring | frontend/src/components/ParameterList.jsx:53 | A key matches iff the lower-cased term occurs in the lower-cased key. |
| ParameterList.SearchIgnoresCase | frontend/src/components/ParameterList.jsx:53-56 | Lower-casing the term does not change what matches. |
| ParameterList.GroupsWithIdSpec | frontend/src/components/ParameterList.jsx:62 | Exactly the groups with the selected id, as an ordered sub-sequence, each as often as it occurs. |
| ParameterList.FilteredGroupsSpec | frontend/src/components/ParameterList.jsx:60-62 | `all` selects every group; otherwise exactly the groups with that id. |
| ParameterList.ShownGroupsSpec | frontend/src/components/ParameterList.jsx:66-68 | A group is drawn iff it has a `parameters` list and the search is empty or one of its parameters matches; the drawn groups are an ordered sub-sequence, each as often as it occurs. |
| ParameterList.VisibleGroupsSpec | frontend/src/components/ParameterList.jsx:60-68 | The drawn groups are exactly the selected groups with a match (any of them, with an empty search), as an ordered sub-sequence, each as often as it occurs. |
| ParameterList.NothingHiddenOnEmptySearch | frontend/src/components/ParameterList.jsx:68 | With an empty search no group is hidden. |
| ParameterList.ToggleFlipsOne | frontend/src/components/ParameterList.jsx:9-17 | Toggling flips that id's membership and no other. |
| ParameterList.ToggleTwice | frontend/src/components/ParameterList.jsx:9-17 | Toggling twice restores the set. |
| ParameterList.EditIdIsAmbiguous | frontend/src/components/ParameterList.jsx:19-22 | Two different group/key pairs can share an edit id when ids contain `-`. |
| ParameterList.ListView.constructor | frontend/src/components/ParameterList.jsx:5-7 | Every group starts expanded and nothing is edited. |
| ParameterList.ListView.ToggleGroup | frontend/src/components/ParameterList.jsx:9-17 | The expanded set becomes `Toggle` of the old one. |
| ParameterList.ListView.StartEdit | frontend/src/components/ParameterList.jsx:19-22 | That row is being edited, seeded with the stored value. |
| ParameterList.ListView.SaveEdit | frontend/src/components/ParameterList.jsx:24-32 | Sends group, key and edit value; clears the slot only when the update succeeds. |
| ParameterList.ListView.CancelEdit | frontend/src/components/ParameterList.jsx:34-37 | No row is being edited afterwards. |
| Text.IndexWhereIsFirst | backend/crud.py:58-61 | The found group (parameter) has the id (key) and no earlier one does. |
| Crud.SetValueChangesOneValue | backend/crud.py:58-68 | Update succeeds iff the first group with the id has the key; it changes only the first such parameter's value. |
| Crud.SetValueTwice | backend/crud.py:58-65 | Setting the same value again changes nothing further. |
| Crud.WithoutKeyIsOrderedFilter | backend/crud.py:104-107 | The comprehension keeps exactly the other keys, in order, dropping one per occurrence. |
| Crud.DeleteKeyRemovesAll | backend/crud.py:101-112 | Delete succeeds iff the first group with the id has the key; it removes every such parameter, keeps the rest in order, keeps that group's other fields and leaves the other groups alone. |
| Crud.AddToAppends | backend/crud.py:145-156 | Add succeeds iff the first group with the id lacks the key; it appends, so the key then occurs exactly once, keeps that group's other fields and leaves the other groups alone. |
| Crud.AddThenDelete | backend/crud.py:101-153 | Deleting a key just added restores the groups. |
| Text.FindFirst | backend/crud.py:58-64 | The group loop and the parameter loop with `break` stop at the first match: `GroupIndex`, `KeyIndex`. |
| Crud.Store.KeepOtherKeys | backend/crud.py:104-107 | The comprehension computes `WithoutKey`. |
| Crud.Store.HasKey | backend/crud.py:148 | `any(...)` is true iff some parameter has the key. |
| Crud.Store.UpdateParameter | backend/crud.py:47-87 | False with the store unchanged when there is no configuration or no match; otherwise stores `SetValue`'s groups and version + 1. |
| Crud.Store.DeleteParameter | backend/crud.py:90-131 | False with the store unchanged when nothing is deleted; otherwise stores `DeleteKey`'s groups and version + 1. |
| Crud.Store.AddParameter | backend/crud.py:134-175 | False with the store unchanged on a missing group or duplicate key; otherwise stores `AddTo`'s groups and version + 1. |

## Left out

- The JavaScript evaluation of user-written source (`new Function`), `parseFloat`, `String` of non-integer numbers, `JSON.parse`/`JSON.stringify` and `toFixed(4)` are parameters of type `Js.Engine`. They are not defined, because they are the host engine.
- Numbers are exact reals with `NaN` and the infinities. There is no IEEE rounding and no `-0`.
- DynamicUi.Round10: is `Math.round(x * 1e10) / 1e10` on exact reals. It does not model double rounding of the product or the quotient.
- Text.Lower: `toLowerCase` is modelled on ASCII letters only, and other characters are kept unchanged. Suggestions, and the parameter search over labels, descriptions and values (`ParameterList.jsx:53-56`), therefore treat non-ASCII capitals as different from their lower-case forms, where the source does not.
- DynamicUi.IndexOrUndefined: plain objects carry no properties in the model. So `param.Range?.[0]` and `param.Range?.[1]` on a mapping such as `{0: 1, 1: 10}` give `undefined`, and FieldFor hands the field no bounds. In the source they read the mapping's entries, and the field checks the range against them. A plain object is opaque in the same way everywhere else in the model.
- `Object.keys` order is taken as the schema's key order. JavaScript lists integer-like keys first; parameter names are identifiers, so this does not arise for them.
- React state updates are modelled as taking effect in order within one handler. Batching and re-render timing are not modelled.
- DynamicField.Render: an option that is a plain object is rendered as a React child, which React refuses with an error. The model lists it as a segment or dropdown entry.
- ParameterRegistry.ViewOf: a plain object given as `Type`, `Description`, `Unit` or a shown value is a React child that React refuses with an error. The model shows it as a value and does not count it as a crash.
- The form's description tooltip (`DynamicUI.jsx:217-287`) appears only while the pointer is over the info icon; it is not modelled. A plain-object `Description`, or `Range` items React refuses, would crash the form only then.
- Rendering, styles, hover tooltips, the modal, `alert`/`confirm` and `console.warn` are not modelled, because they are presentation.
- The focus restore after a selection (`setTimeout`, `FormulaEditor.jsx:69-74`) is not modelled. `SelectSuggestion` returns the caret position instead.
- `handleDelete` in `ParameterList.jsx` only confirms and forwards to the back end, so it is left out.
- The outcome of `onUpdate` in `saveEdit` is an input of `SaveEdit` (`succeeded`).
- `ParameterList.VisibleGroups`: requires every group to carry a `parameters` list. A group without one makes the browser code throw.
- An absent or empty search term is modelled as `""`.
- DynamicUi.GetValue: reads the override under the parameter's name. The source spreads the definition over its name (`{ key, ...param }`, `DynamicUI.jsx:84,137`), so a definition with its own `key` attribute would be read under that attribute instead; parameter definitions are not expected to carry one.
- DynamicUi.Rows: objects are modelled as maps without a prototype. In the source, `values[...]` (`DynamicUI.jsx:73`) and `context[...]` (`DynamicUI.jsx:138`) for a name such as `constructor` or `toString` that the object lacks read the inherited member instead of `undefined`. The same holds for the registry's and the editor's context objects (ParameterRegistry.BuildContext, FormulaEditor.Evaluate).
- SQLite access, `json.dumps`/`json.loads` and `updated_at` timestamps in `backend/crud.py` are not modelled. The stored row is the `Store.config` field, and `None` stands for a missing row.
- `data.get("groups", [])` on data without groups is modelled as an empty group list; the two behave the same.
- A group without `id` and a parameter without `key` raise `KeyError` in the back end. The model's records always have these fields.
- Crud.Store.AddParameter: requires the first group with the id to have a `parameters` field, because `group["parameters"].append` raises otherwise.
- The remaining components (YAML editor, panels, search box, info and modal views, the API service and the FastAPI routes) are not modelled, because they are presentation and I/O around this core.

## Findings

| source | as written | input that shows it | evidently intended | confidence | as-written member | corrected member |
|---|---|---|---|---|---|---|
| frontend/src/components/DynamicField.jsx:80-103 | The `select` and `string` cases fall through into `case 'date'` when there are no options. | A parameter of type `String` with no `Options`. | The comment at line 94 says a text input: the `default` case. | not executed; follows from the `switch` as written | DynamicField.StringWithoutOptionsIsDate | DynamicField.IntendedRender |
