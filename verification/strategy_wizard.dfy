/** The step wizard controller of the strategy creation page: a step index
    over the four sections Scan, Buy, Sell and Simulation, the draft being
    edited, and a map from field to error message. Each handler is an
    atomic, pure transition on that state; the page's "strategy created"
    alert and navigation are reported as a flag instead.
 */
module StrategyWizard {
  import opened StrategyForm

  /** The wizard's step titles; their count fixes the last step index. */
  const Steps: seq<string> := ["Scan", "Buy", "Sell", "Simulation"]
  const LastStep: nat := |Steps| - 1

  /** The controller's state. Errors are filed under the field they concern;
      the page files them under the field's property name, which names one
      field only (see StrategyForm.KeyInjective), and ErrorsByKey gives that
      view. */
  datatype State = State(step: nat, form: FormData, errors: map<Field, string>)

  /** The outcome of pressing "Next": the new state, and whether the wizard
      signalled that the strategy was created. */
  datatype Transition = Transition(state: State, completed: bool)

  /** The outcome of validating a step: the new state and the verdict. */
  datatype Checked = Checked(state: State, valid: bool)

  /** The state the page mounts with: first step, blank draft, no errors. */
  const Start: State := State(0, Initial, map[])

  /** The fields a step insists on, in the order the step checks them; a step
      outside 0..3 insists on nothing. */
  function RequiredFields(step: int): (fields: seq<Field>)
    ensures forall i :: 0 <= i < |fields| ==> Required(fields[i])
  {
    if step == 0 then [Exchange, Instrument]
    else if step == 1 then [EntryType, PriceLevel]
    else if step == 2 then [ExitType, ProfitTarget]
    else if step == 3 then [InitialCapital, StrategyName]
    else []
  }

  /** The section the page renders at a step: the blocks shown when the
      current step is 0, 1, 2 or 3 (src/pages/StrategyCreation.tsx:159, 228,
      301 and 376) edit the scanner, buy, sell and simulation sections. */
  function StepSection(step: nat): Section
    requires step <= LastStep
  {
    if step == 0 then ScannerSection
    else if step == 1 then BuySection
    else if step == 2 then SellSection
    else SimulationSection
  }

  /** A step insists only on text fields of the section it shows. */
  lemma RequiredFieldsOfShownSection(step: nat, f: Field)
    requires step <= LastStep && f in RequiredFields(step)
    ensures SectionOf(f) == StepSection(step) && KindOf(f) == TextKind
  {
  }

  /** The fields some step insists on. */
  predicate Required(f: Field)
  {
    match f
    case Exchange | Instrument | EntryType | PriceLevel | ExitType | ProfitTarget | InitialCapital | StrategyName => true
    case _ => false
  }

  /** A field is required exactly when some step's checks list it. */
  lemma RequiredIsChecked(f: Field)
    ensures Required(f) <==> exists step :: 0 <= step <= LastStep && f in RequiredFields(step)
  {
    if Required(f) {
      var step := match f
        case Exchange | Instrument => 0
        case EntryType | PriceLevel => 1
        case ExitType | ProfitTarget => 2
        case _ => 3;
      assert f in RequiredFields(step);
    }
  }

  /** The message shown when a required field is left empty. */
  function Message(f: Field): (m: string)
    requires Required(f)
    ensures m != ""
  {
    match f
    case Exchange => "Exchange is required"
    case Instrument => "Instrument is required"
    case EntryType => "Entry type is required"
    case PriceLevel => "Price level is required"
    case ExitType => "Exit type is required"
    case ProfitTarget => "Profit target is required"
    case InitialCapital => "Initial capital is required"
    case StrategyName => "Strategy name is required"
  }

  /** The page's truthiness test `!value` on a field's value: text is falsy
      when it is "", a flag when it is false, and a list never is. */
  predicate Falsy(v: Value)
  {
    match v
    case Text(t) => t == ""
    case Flag(b) => !b
    case List(_) => false
  }

  /** A field counts as missing when its value is falsy. A text field is
      missing exactly when it is "", so text made of blanks counts as filled. */
  predicate Missing(form: FormData, f: Field)
    ensures KindOf(f) == TextKind ==> (Missing(form, f) <==> Get(form, f) == Text(""))
    ensures KindOf(f) == FlagKind ==> (Missing(form, f) <==> Get(form, f) == Flag(false))
    ensures KindOf(f) == ListKind ==> !Missing(form, f)
  {
    Falsy(Get(form, f))
  }

  /** Every field the step insists on is filled in. */
  predicate StepComplete(form: FormData, step: int)
  {
    forall f :: f in RequiredFields(step) ==> !Missing(form, f)
  }

  /** One required-field check: an entry for the field, with its message,
      when the field is empty; else nothing. */
  function Require(form: FormData, f: Field): (e: map<Field, string>)
    requires Required(f)
    ensures e.Keys <= {f}
    ensures f in e <==> Missing(form, f)
    ensures f in e ==> e[f] == Message(f)
  {
    if Missing(form, f) then map[f := Message(f)] else map[]
  }

  /** The checks of one switch arm performed in order: an entry for exactly
      the listed fields that are empty, each carrying its own message. */
  function Collect(form: FormData, fields: seq<Field>): (e: map<Field, string>)
    requires forall i :: 0 <= i < |fields| ==> Required(fields[i])
    ensures forall f :: f in e <==> f in fields && Missing(form, f)
    ensures forall f :: f in e ==> Required(f) && e[f] == Message(f)
    decreases |fields|
  {
    if fields == [] then map[]
    else Require(form, fields[0]) + Collect(form, fields[1..])
  }

  /** The error map a validation of `step` builds from scratch: the page's
      switch runs the checks of the step's arm, and no check for any other
      step index. */
  function StepErrors(form: FormData, step: int): (e: map<Field, string>)
    ensures forall f :: f in e <==> f in RequiredFields(step) && Missing(form, f)
    ensures forall f :: f in e ==> Required(f) && e[f] == Message(f)
  {
    Collect(form, RequiredFields(step))
  }

  /** A validation files no entry exactly when the step is complete. */
  lemma StepErrorsEmpty(form: FormData, step: int)
    ensures |StepErrors(form, step).Keys| == 0 <==> StepComplete(form, step)
  {
    var e := StepErrors(form, step);
    if |e.Keys| == 0 {
      forall f | f in RequiredFields(step)
        ensures !Missing(form, f)
      {
        assert f !in e.Keys;
      }
    } else {
      var f :| f in e.Keys;
      assert f in RequiredFields(step) && Missing(form, f);
    }
  }

  /** validateStep: replaces the error map with the one built for `step` and
      reports whether it is empty. Step and draft are untouched. */
  function ValidateStep(s: State, step: int): (r: Checked)
    ensures r.state.step == s.step && r.state.form == s.form
    ensures r.valid <==> StepComplete(s.form, step)
    ensures r.valid <==> r.state.errors == map[]
    ensures forall f :: f in r.state.errors <==> f in RequiredFields(step) && Missing(s.form, f)
    ensures forall f :: f in r.state.errors ==> Required(f) && r.state.errors[f] == Message(f)
  {
    var errors := StepErrors(s.form, step);
    StepErrorsEmpty(s.form, step);
    assert |errors.Keys| == 0 <==> errors == map[] by {
      if |errors.Keys| == 0 {
        assert errors.Keys == {};
      }
    }
    Checked(s.(errors := errors), |errors.Keys| == 0)
  }

  /** handleNext: validate the current step; on failure stay put with the new
      errors, on success move one step on, or at the last step signal that
      the strategy was created without resetting anything. */
  function Next(s: State): (t: Transition)
    ensures t.state.form == s.form
    ensures s.step <= LastStep ==> t.state.step <= LastStep
    ensures forall f :: f in t.state.errors <==> f in RequiredFields(s.step) && Missing(s.form, f)
    ensures forall f :: f in t.state.errors ==> Required(f) && t.state.errors[f] == Message(f)
    ensures !StepComplete(s.form, s.step) ==> t.state.step == s.step && !t.completed && t.state.errors != map[]
    ensures StepComplete(s.form, s.step) && s.step < LastStep ==>
              t.state.step == s.step + 1 && !t.completed && t.state.errors == map[]
    ensures StepComplete(s.form, s.step) && s.step >= LastStep ==>
              t.state.step == s.step && t.completed && t.state.errors == map[]
  {
    var checked := ValidateStep(s, s.step);
    if checked.valid then
      if s.step < |Steps| - 1 then Transition(checked.state.(step := s.step + 1), false)
      else Transition(checked.state, true)
    else Transition(checked.state, false)
  }

  /** handleBack: one step back unless already at the first; no validation,
      so errors already shown stay. */
  function Back(s: State): (r: State)
    ensures r.form == s.form && r.errors == s.errors
    ensures s.step > 0 ==> r.step + 1 == s.step
    ensures s.step == 0 ==> r == s
  {
    if s.step > 0 then s.(step := s.step - 1) else s
  }

  /** handleChange: store `v` in field `f` of `section`, and drop the error
      filed for the field when that entry is truthy (a non-empty message). */
  function Change(s: State, section: Section, f: Field, v: Value): (r: State)
    requires SectionOf(f) == section && Fits(f, v)
    ensures r.step == s.step
    ensures Get(r.form, f) == v
    ensures forall g :: g != f ==> Get(r.form, g) == Get(s.form, g)
    ensures forall g :: g in r.errors ==> g in s.errors && r.errors[g] == s.errors[g]
    ensures forall g :: g in s.errors && g != f ==> g in r.errors
    ensures f in s.errors && s.errors[f] != "" ==> f !in r.errors
    ensures f !in s.errors || s.errors[f] == "" ==> r.errors == s.errors
  {
    var form := Set(s.form, f, v);
    if f in s.errors && s.errors[f] != "" then
      State(s.step, form, s.errors - {f})
    else
      State(s.step, form, s.errors)
  }

  /** The error map as the page holds it, keyed by property name. */
  function ErrorsByKey(errors: map<Field, string>): (m: map<string, string>)
    ensures forall f :: Key(f) in m <==> f in errors
    ensures forall f :: f in errors ==> m[Key(f)] == errors[f]
    ensures forall k :: k in m ==> exists f :: f in errors && Key(f) == k
  {
    assert forall f, g :: Key(f) == Key(g) ==> f == g by {
      forall f, g | Key(f) == Key(g)
        ensures f == g
      {
        KeyInjective(f, g);
      }
    }
    map f | f in errors :: Key(f) := errors[f]
  }

  /** Dropping a field's entry from the model's map drops exactly that
      field's property name from the page's map, as `delete` does. */
  lemma ErrorsByKeyRemove(errors: map<Field, string>, f: Field)
    ensures ErrorsByKey(errors - {f}) == ErrorsByKey(errors) - {Key(f)}
  {
    var a, b := ErrorsByKey(errors - {f}), ErrorsByKey(errors) - {Key(f)};
    forall k | k in a
      ensures k in b && a[k] == b[k]
    {
      var g :| g in errors - {f} && Key(g) == k;
      KeyDistinct(g, f);
    }
    forall k | k in b
      ensures k in a
    {
      var g :| g in errors && Key(g) == k;
      KeyDistinct(g, f);
    }
  }

  /** What every reachable state satisfies: the step is a real step and every
      error message is non-empty. */
  predicate Valid(s: State)
  {
    s.step <= LastStep && forall k :: k in s.errors ==> s.errors[k] != ""
  }

  /** The page mounts at step 0 with no errors and a draft whose text fields
      are "", flags false and indicator list empty. */
  lemma StartIsBlank()
    ensures Start.step == 0 && Start.errors == map[] && Valid(Start)
    ensures forall f :: KindOf(f) == TextKind ==> Get(Start.form, f) == Text("")
    ensures forall f :: KindOf(f) == FlagKind ==> Get(Start.form, f) == Flag(false)
    ensures Get(Start.form, Indicators) == List([])
  {
    forall f
      ensures Get(Start.form, f) == Blank(KindOf(f))
    {
      InitialIsBlank(f);
    }
  }

  /** The error map after a validation depends only on the draft and the step:
      whatever errors were shown before are gone. */
  lemma ValidateForgetsOldErrors(s: State, u: State, step: int)
    requires s.form == u.form
    ensures ValidateStep(s, step).state == ValidateStep(u, step).state.(step := s.step)
  {
  }

  /** Once the errors are on screen, editing a field removes exactly the entry
      for that field and keeps every other entry. */
  lemma ChangeClearsExactlyOwnError(s: State, section: Section, f: Field, v: Value)
    requires Valid(s) && SectionOf(f) == section && Fits(f, v)
    ensures Change(s, section, f, v).errors == s.errors - {f}
  {
  }

  /** The draft after an edit differs from the one before in exactly the edited
      field: writing the old value back restores it. */
  lemma ChangeUndone(s: State, section: Section, f: Field, v: Value)
    requires SectionOf(f) == section && Fits(f, v)
    ensures Change(Change(s, section, f, v), section, f, Get(s.form, f)).form == s.form
  {
    SetSetSame(s.form, f, v, Get(s.form, f));
    SetOwnValue(s.form, f);
  }

  /** The user's actions on the page. An edit names the section and field as
      the page's inputs do. */
  datatype Action = PressNext | PressBack | Edit(section: Section, field: Field, value: Value)

  predicate WellFormed(a: Action)
  {
    a.Edit? ==> SectionOf(a.field) == a.section && Fits(a.field, a.value)
  }

  function Apply(s: State, a: Action): (t: Transition)
    requires WellFormed(a)
  {
    match a
    case PressNext => Next(s)
    case PressBack => Transition(Back(s), false)
    case Edit(section, f, v) => Transition(Change(s, section, f, v), false)
  }

  /** Every handler keeps a valid state valid. */
  lemma ApplyPreservesValid(s: State, a: Action)
    requires Valid(s) && WellFormed(a)
    ensures Valid(Apply(s, a).state)
  {
    match a
    case PressNext =>
      var t := Next(s);
      forall g | g in t.state.errors
        ensures t.state.errors[g] != ""
      {
        assert Required(g) && t.state.errors[g] == Message(g);
      }
    case PressBack =>
    case Edit(section, f, v) =>
  }

  /** A session: the actions are handled one at a time until one of them
      reports that the strategy was created, after which the page leaves. */
  function Run(s: State, actions: seq<Action>): (r: State)
    requires Valid(s)
    requires forall i :: 0 <= i < |actions| ==> WellFormed(actions[i])
    ensures Valid(r)
    ensures 0 <= r.step <= LastStep
    decreases |actions|
  {
    if actions == [] then s
    else
      var t := Apply(s, actions[0]);
      ApplyPreservesValid(s, actions[0]);
      if t.completed then t.state else Run(t.state, actions[1..])
  }

  /** From the mounted page, any sequence of Next, Back and edits keeps the
      step within 0..3. */
  lemma SessionStepInRange(actions: seq<Action>)
    requires forall i :: 0 <= i < |actions| ==> WellFormed(actions[i])
    ensures 0 <= Run(Start, actions).step <= 3
  {
    StartIsBlank();
  }

  /** Validating the blank draft's first step reports both scanner fields. */
  lemma BlankScannerErrors()
    ensures StepErrors(Initial, 0) == map[Exchange := "Exchange is required", Instrument := "Instrument is required"]
  {
    var e := StepErrors(Initial, 0);
    assert Exchange in RequiredFields(0) && Missing(Initial, Exchange);
    assert Instrument in RequiredFields(0) && Missing(Initial, Instrument);
    assert e.Keys == {Exchange, Instrument};
    assert e[Exchange] == Message(Exchange);
    assert e[Instrument] == Message(Instrument);
  }

  /** Next on the blank draft stays on step 0 and reports both scanner fields. */
  lemma BlankNextReportsScannerFields()
    ensures Next(Start) == Transition(
      State(0, Initial, map[Exchange := "Exchange is required", Instrument := "Instrument is required"]),
      false)
  {
    BlankScannerErrors();
    assert !StepComplete(Initial, 0) by {
      assert Exchange in RequiredFields(0) && Missing(Initial, Exchange);
    }
    assert ValidateStep(Start, 0).state == State(0, Initial, StepErrors(Initial, 0));
  }

  /** Filling exchange and instrument lets Next move to step 1 with no errors. */
  lemma FilledScannerAdvances()
    ensures var s := Change(Change(Start, ScannerSection, Exchange, Text("forex")), ScannerSection, Instrument, Text("I1"));
            Next(s) == Transition(s.(step := 1, errors := map[]), false)
  {
    var s := Change(Change(Start, ScannerSection, Exchange, Text("forex")), ScannerSection, Instrument, Text("I1"));
    assert !Missing(s.form, Exchange) && !Missing(s.form, Instrument);
    assert StepComplete(s.form, 0);
  }

  /** At the last step with its required fields filled, Next signals creation
      and keeps the draft. */
  lemma FilledSimulationCompletes(s: State)
    requires s.step == 3 && s.form.simulation.initialCapital != "" && s.form.simulation.name != ""
    ensures Next(s) == Transition(s.(errors := map[]), true)
  {
    assert !Missing(s.form, InitialCapital) && !Missing(s.form, StrategyName);
    assert StepComplete(s.form, 3);
  }
}
