# Strategy creation wizard — a Dafny model

This project models the step wizard controller of the trading-strategy
creation page (`CreateStrategyPage`). The page builds a draft strategy in four
sections: scanner, buy, sell and simulation. It walks the user through them in
four steps, "Scan", "Buy", "Sell" and "Simulation", and keeps a map of error
messages for required fields left empty.

The model has two modules:

- `StrategyForm` (`strategy_form.dfy`) holds the draft record. Each section
  is a datatype, and there is one `Field` constructor per field of any
  section. `Get` reads a field. `Set` writes one field by copying its section
  with that field replaced. `Initial` is the blank draft the page starts
  from. `Key` gives the property name the page uses for a field.
- `StrategyWizard` (`strategy_wizard.dfy`) holds the controller. `State` is
  the step index, the draft and the error map. The handlers are pure
  transitions: `ValidateStep` (validateStep), `Next` (handleNext), `Back`
  (handleBack) and `Change` (handleChange). `Run` plays a whole session of
  user actions through them.

The page keys its error map by the field's property name. The model keys it
by `Field`. `StrategyForm.KeyInjective` proves that property names are unique
across all sections, so the two maps carry the same information.
`StrategyWizard.ErrorsByKey` converts the model's map into the page's
string-keyed map.

"Required" follows the page's truthiness test `!value`. Every checked field is
text, so a field is missing exactly when it is the empty string. Text made
only of blanks counts as filled.

## Model

| member | source | states |
|---|---|---|
| StrategyForm.Get | src/types/types.ts:9-34 | every field of the draft holds a value of the type the record declares: text, flag, or the list of indicator identifiers |
| StrategyForm.Extensionality | src/types/types.ts:9-34 | the sixteen fields are the whole draft: two drafts that agree on every field are equal |
| StrategyForm.KeyInjective | src/types/types.ts:9-34 | no two fields share a property name, across all four sections, so an error keyed by name points at one field |
| StrategyForm.KeyDistinct | src/types/types.ts:9-34 | two fields have the same property name if and only if they are the same field |
| StrategyForm.InitialIsBlank | src/pages/StrategyCreation.tsx:25-50 | every field of the initial draft is blank for its type: "" for text, false for flags, [] for indicators |
| StrategyForm.Set | src/pages/StrategyCreation.tsx:112-119 | writing a field stores exactly the given value in that field; every other field keeps its value, and every section other than the field's own is unchanged |
| StrategyForm.SetOwnValue | src/pages/StrategyCreation.tsx:112-119 | writing back the value a field already holds gives back the same draft |
| StrategyForm.SetSetSame | src/pages/StrategyCreation.tsx:112-119 | of two writes to the same field, the later one wins and the earlier one leaves no trace |
| StrategyForm.SetCommutes | src/pages/StrategyCreation.tsx:112-119 | writes to two different fields give the same draft in either order |
| StrategyWizard.RequiredFields | src/pages/StrategyCreation.tsx:64-89 | the fields each switch arm checks, in the order it checks them; each is a required text field, and any other step checks none |
| StrategyWizard.RequiredIsChecked | src/pages/StrategyCreation.tsx:64-89 | a field is required exactly when some step 0..3 checks it: the eight fields with messages are the eight the switch arms test |
| StrategyWizard.Missing | src/pages/StrategyCreation.tsx:66-87 | the `!value` test on a field: a text field fails it exactly when it is "", a flag exactly when it is false, and the indicator list never |
| StrategyWizard.Require | src/pages/StrategyCreation.tsx:66-67 | one `if (!x) newErrors.k = msg` check: an entry for the checked field alone, present exactly when the field is missing, carrying that field's message |
| StrategyWizard.RequiredFieldsOfShownSection | src/pages/StrategyCreation.tsx:59-89 | each step checks only text fields of the section that the step shows (Scan: scanner, Buy: buy, Sell: sell, Simulation: simulation) |
| StrategyWizard.Message | src/pages/StrategyCreation.tsx:64-89 | each required field's error message is non-empty, which is why a filed error is truthy |
| StrategyWizard.Collect | src/pages/StrategyCreation.tsx:62-88 | running a step's checks in order files an entry for exactly the listed fields that are empty, each with its own message |
| StrategyWizard.StepErrors | src/pages/StrategyCreation.tsx:61-89 | validating a step files an entry for exactly that step's required fields that are "", with that field's fixed message. Step 0 checks exchange and instrument, step 1 entryType and priceLevel, step 2 exitType and profitTarget, step 3 initialCapital and name. Any other step files nothing |
| StrategyWizard.StepErrorsEmpty | src/pages/StrategyCreation.tsx:91-92 | the new error map has no keys exactly when every required field of the step is filled |
| StrategyWizard.ValidateStep | src/pages/StrategyCreation.tsx:61-93 | validation keeps the step and the draft unchanged. It replaces the error map with one holding exactly the missing fields of the step, with their messages. It returns true exactly when that map is empty, which is exactly when the step is complete |
| StrategyWizard.ValidateForgetsOldErrors | src/pages/StrategyCreation.tsx:61-62 | the errors after a validation depend only on the draft and the step: nothing from earlier errors carries over |
| StrategyWizard.Next | src/pages/StrategyCreation.tsx:95-104 | the draft is never changed, and the errors are those of the current step. On a failed validation the step stays and completion is not signalled. On success below step 3 the step rises by exactly one. On success at step 3 the step stays, the errors are empty, completion is signalled, and the draft is not reset. From a step within 0..3 the next step is within 0..3 |
| StrategyWizard.Back | src/pages/StrategyCreation.tsx:106-110 | the step drops by exactly one when it is above 0, and otherwise the state is unchanged. The draft and the errors are never changed: there is no validation, and stale errors stay |
| StrategyWizard.Change | src/pages/StrategyCreation.tsx:112-126 | the step is unchanged. The edited field holds the new value and every other field is unchanged. No error entry is added or altered. Every entry for another field stays. The field's own entry is removed when its message is truthy. If the field has no entry, the error map is unchanged |
| StrategyWizard.ChangeClearsExactlyOwnError | src/pages/StrategyCreation.tsx:121-125 | in any reachable state, where every message is non-empty, an edit removes exactly the edited field's error entry and nothing else |
| StrategyWizard.ChangeUndone | src/pages/StrategyCreation.tsx:112-119 | editing a field and then writing its old value back restores the draft: an edit touches nothing else |
| StrategyWizard.ErrorsByKey | src/pages/StrategyCreation.tsx:121-124 | the page's string-keyed error map holds an entry under a field's property name exactly when the model's map holds one for that field, with the same message, and holds no other key |
| StrategyWizard.ErrorsByKeyRemove | src/pages/StrategyCreation.tsx:121-124 | dropping a field's entry from the model's map is the same as deleting that field's property name from the page's map, so the model's `errors - {f}` is the page's `delete newErrors[field]` |
| StrategyWizard.StartIsBlank | src/pages/StrategyCreation.tsx:25-55 | the page mounts at step 0 with an empty error map. Every text field is "", every flag is false, and indicators is empty |
| StrategyWizard.ApplyPreservesValid | src/pages/StrategyCreation.tsx:95-126 | each handler keeps the step within 0..3 and every error message non-empty |
| StrategyWizard.Run | src/pages/StrategyCreation.tsx:95-110 | from a valid state, any sequence of Next, Back and edits ends in a valid state with the step in 0..3 |
| StrategyWizard.SessionStepInRange | src/pages/StrategyCreation.tsx:53-110 | starting from the mounted page, every session leaves the step in 0..3 |
| StrategyWizard.BlankScannerErrors | src/pages/StrategyCreation.tsx:64-70 | validating step 0 of the blank draft files "Exchange is required" and "Instrument is required" and nothing else |
| StrategyWizard.BlankNextReportsScannerFields | src/pages/StrategyCreation.tsx:95-104 | Next on the freshly mounted page stays on step 0 with exactly the two scanner errors and does not complete |
| StrategyWizard.FilledScannerAdvances | src/pages/StrategyCreation.tsx:95-98 | after setting exchange to "forex" and instrument to "I1", Next moves to step 1 with no errors |
| StrategyWizard.FilledSimulationCompletes | src/pages/StrategyCreation.tsx:95-102 | at step 3 with initial capital and name filled, Next signals completion, keeps step and draft, and clears the errors |

## Left out

- All JSX rendering, CSS classes and the Select, Input and Switch widgets (src/pages/StrategyCreation.tsx:128-464) are presentation only.
- The progress bar percentage (src/pages/StrategyCreation.tsx:134) is left out. It is floating-point display arithmetic.
- The `alert` and `navigate("/dashboard")` on completion (src/pages/StrategyCreation.tsx:100-101) are browser and router side effects. They appear only as the `completed` flag of `Next`. `Run` stops at the first completion because the page navigates away.
- React's `useState` batching and stale closures are not modelled. Each handler is one atomic transition on the current state.
- The dashboard, the header, the app's routes and the `Strategy` type (src/types/types.ts:1-7) are a static fixture and layout glue.
- StrategyWizard.Change: requires that the field belongs to the named section and that the value has the field's declared type. The page's handler accepts any section, any field name and any value (`any`). Every call site passes a matching section, field and type. A mismatched call would add a stray property to the section, and that is not modelled.
- Errors are keyed by `Field` rather than by string. Only the page's own field names are ever used as keys, and `ErrorsByKey` gives the string-keyed view.
- The indicators list has no input on the page, so it stays empty. The model still lets `Change` write it, as the handler would.
