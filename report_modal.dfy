/**
 * The three-step "report an urban issue" wizard: identification (title,
 * category, urgency, neighbourhood), location (address, description) and
 * evidence (photos, priority preview, anonymity), closed by a submit.
 *
 * The wizard's behaviour is given once, on values (`Wizard`, `Action`,
 * `Next`), and the `ReportWizard` class holds the three state fields the
 * component updates in place; each handler is proved to move the fields
 * exactly as `Next` says.
 */
module ReportModal {
  import opened Issues
  import opened Text

  /** The form the wizard fills in. */
  datatype FormData = FormData(
    title: string,
    category: string,
    neighborhood: string,
    address: string,
    description: string,
    severity: Severity,
    anonymous: bool)

  /** Empty texts, urgency "high", not anonymous. */
  const INITIAL_FORM := FormData("", "", "", "", "", High, false)

  datatype Field =
    | TitleField | CategoryField | NeighborhoodField | AddressField
    | DescriptionField | SeverityField | AnonymousField

  /** What a form field can hold: a text, an urgency level or a flag. */
  datatype Value = TextValue(text: string) | LevelValue(level: Severity) | FlagValue(flag: bool)

  /** The value of one field of the form. */
  function Get(form: FormData, field: Field): Value {
    match field
    case TitleField => TextValue(form.title)
    case CategoryField => TextValue(form.category)
    case NeighborhoodField => TextValue(form.neighborhood)
    case AddressField => TextValue(form.address)
    case DescriptionField => TextValue(form.description)
    case SeverityField => LevelValue(form.severity)
    case AnonymousField => FlagValue(form.anonymous)
  }

  /** The kind of value each field accepts. */
  predicate Fits(field: Field, value: Value) {
    match field
    case SeverityField => value.LevelValue?
    case AnonymousField => value.FlagValue?
    case _ => value.TextValue?
  }

  /** Two forms are equal exactly when every field reads the same. */
  lemma FormsEqualByFields(a: FormData, b: FormData)
    ensures a == b <==> forall f :: Get(a, f) == Get(b, f)
  {
    if forall f :: Get(a, f) == Get(b, f) {
      assert Get(a, TitleField) == Get(b, TitleField);
      assert Get(a, CategoryField) == Get(b, CategoryField);
      assert Get(a, NeighborhoodField) == Get(b, NeighborhoodField);
      assert Get(a, AddressField) == Get(b, AddressField);
      assert Get(a, DescriptionField) == Get(b, DescriptionField);
      assert Get(a, SeverityField) == Get(b, SeverityField);
      assert Get(a, AnonymousField) == Get(b, AnonymousField);
    }
  }

  /** The form after `handleChange(field, value)`: that field set, all others kept. */
  function Change(form: FormData, field: Field, value: Value): (r: FormData)
    requires Fits(field, value)
    ensures Get(r, field) == value
    ensures forall f :: f != field ==> Get(r, f) == Get(form, f)
  {
    match field
    case TitleField => form.(title := value.text)
    case CategoryField => form.(category := value.text)
    case NeighborhoodField => form.(neighborhood := value.text)
    case AddressField => form.(address := value.text)
    case DescriptionField => form.(description := value.text)
    case SeverityField => form.(severity := value.level)
    case AnonymousField => form.(anonymous := value.flag)
  }

  /** Edits of two different fields can be made in either order. */
  lemma ChangesCommute(form: FormData, f1: Field, v1: Value, f2: Field, v2: Value)
    requires Fits(f1, v1) && Fits(f2, v2) && f1 != f2
    ensures Change(Change(form, f1, v1), f2, v2) == Change(Change(form, f2, v2), f1, v1)
  {
    var a := Change(Change(form, f1, v1), f2, v2);
    var b := Change(Change(form, f2, v2), f1, v1);
    FormsEqualByFields(a, b);
  }

  /** Writing back a field's own value leaves the form as it was. */
  lemma ChangeToSameValue(form: FormData, field: Field)
    ensures Fits(field, Get(form, field))
    ensures Change(form, field, Get(form, field)) == form
  {
    FormsEqualByFields(Change(form, field, Get(form, field)), form);
  }

  /** Step 1 may be left when title, category and neighbourhood are filled in. */
  predicate Step1Valid(form: FormData) {
    form.title != "" && form.category != "" && form.neighborhood != ""
  }

  /** Step 2 may be left when the address is filled in. */
  predicate Step2Valid(form: FormData) {
    form.address != ""
  }

  /** The fields whose inputs are drawn on each step. */
  predicate FieldOnStep(field: Field, step: int) {
    match field
    case TitleField | CategoryField | SeverityField | NeighborhoodField => step == 1
    case AddressField | DescriptionField => step == 2
    case AnonymousField => step == 3
  }

  /** The wizard's whole state. */
  datatype Wizard = Wizard(step: int, submitted: bool, form: FormData)

  const INITIAL_WIZARD := Wizard(1, false, INITIAL_FORM)

  /** The user's possible moves: edit a field, Back, Continue, Submit. */
  datatype Action = Edit(field: Field, value: Value) | Back | Continue | Submit

  /**
   * The controls on screen in state `w`: none after submission; otherwise
   * the current step's inputs, Back, and Continue on steps 1 and 2 or
   * Submit on step 3.
   */
  predicate Offered(w: Wizard, a: Action) {
    !w.submitted &&
    match a
    case Edit(field, value) => FieldOnStep(field, w.step) && Fits(field, value)
    case Back => true
    case Continue => w.step < 3
    case Submit => w.step == 3
  }

  /** The state after an offered move. */
  function Next(w: Wizard, a: Action): Wizard
    requires Offered(w, a)
  {
    match a
    case Edit(field, value) => w.(form := Change(w.form, field, value))
    case Back => if w.step > 1 then w.(step := w.step - 1) else w
    case Continue =>
      if (if w.step == 1 then Step1Valid(w.form) else Step2Valid(w.form))
      then w.(step := w.step + 1) else w
    case Submit => w.(submitted := true)
  }

  /**
   * What every reachable state satisfies: the step is 1, 2 or 3; past step
   * 1 the identification is complete; on step 3 the address is present;
   * a submission happens only from step 3.
   */
  predicate Inv(w: Wizard) {
    && 1 <= w.step <= 3
    && (w.step >= 2 ==> Step1Valid(w.form))
    && (w.step == 3 ==> Step2Valid(w.form))
    && (w.submitted ==> w.step == 3)
  }

  lemma InitialInv()
    ensures Inv(INITIAL_WIZARD)
    ensures !Step1Valid(INITIAL_WIZARD.form)
  {
  }

  /** Every offered move keeps the invariant. */
  lemma NextKeepsInv(w: Wizard, a: Action)
    requires Inv(w) && Offered(w, a)
    ensures Inv(Next(w, a))
  {
    match a
    case Edit(field, value) =>
      var r := Next(w, a);
      assert Get(r.form, TitleField) == Get(w.form, TitleField) || w.step == 1;
      assert Get(r.form, CategoryField) == Get(w.form, CategoryField) || w.step == 1;
      assert Get(r.form, NeighborhoodField) == Get(w.form, NeighborhoodField) || w.step == 1;
      assert Get(r.form, AddressField) == Get(w.form, AddressField) || w.step == 2;
    case Back =>
    case Continue =>
    case Submit =>
  }

  /** A click on a control that is not on screen does nothing. */
  function Click(w: Wizard, a: Action): Wizard {
    if Offered(w, a) then Next(w, a) else w
  }

  /** The state after a whole session of clicks. */
  function Run(w: Wizard, clicks: seq<Action>): Wizard
    decreases |clicks|
  {
    if clicks == [] then w else Run(Click(w, clicks[0]), clicks[1..])
  }

  /** However the user clicks, the invariant survives. */
  lemma {:induction false} RunKeepsInv(w: Wizard, clicks: seq<Action>)
    requires Inv(w)
    ensures Inv(Run(w, clicks))
    decreases |clicks|
  {
    if clicks != [] {
      if Offered(w, clicks[0]) {
        NextKeepsInv(w, clicks[0]);
      }
      RunKeepsInv(Click(w, clicks[0]), clicks[1..]);
    }
  }

  /**
   * Whatever the user did, a submitted report carries a title, a category,
   * a neighbourhood and an address, and the wizard sits on step 3.
   */
  lemma SubmittedReportIsComplete(clicks: seq<Action>)
    ensures var w := Run(INITIAL_WIZARD, clicks);
      w.submitted ==> w.step == 3 && Step1Valid(w.form) && Step2Valid(w.form)
  {
    InitialInv();
    RunKeepsInv(INITIAL_WIZARD, clicks);
  }

  /** Back: one step down above step 1, nothing at step 1; the form is kept. */
  lemma BackMoves(w: Wizard)
    requires Inv(w) && !w.submitted
    ensures Next(w, Back).step == if w.step == 1 then 1 else w.step - 1
    ensures Next(w, Back).form == w.form && !Next(w, Back).submitted
  {
  }

  /** Continue advances exactly one step iff the current step is valid, else nothing changes. */
  lemma ContinueMoves(w: Wizard)
    requires Inv(w) && Offered(w, Continue)
    ensures var valid := if w.step == 1 then Step1Valid(w.form) else Step2Valid(w.form);
      && (valid ==> Next(w, Continue) == w.(step := w.step + 1))
      && (!valid ==> Next(w, Continue) == w)
      && Next(w, Continue).step <= 3
  {
  }

  /** Submit sets only the flag, and afterwards no control is offered. */
  lemma SubmitFinal(w: Wizard, a: Action)
    requires Inv(w) && Offered(w, Submit)
    ensures Next(w, Submit).submitted
    ensures Next(w, Submit).step == w.step && Next(w, Submit).form == w.form
    ensures !Offered(Next(w, Submit), a)
  {
  }

  /** The wizard component's state fields. */
  class ReportWizard {
    var step: int
    var submitted: bool
    var formData: FormData

    function State(): Wizard
      reads this
    {
      Wizard(step, submitted, formData)
    }

    ghost predicate Valid()
      reads this
    {
      Inv(State())
    }

    constructor ()
      ensures State() == INITIAL_WIZARD
      ensures Valid()
    {
      step := 1;
      submitted := false;
      formData := INITIAL_FORM;
    }

    /** `handleChange`: replaces one field of the form. */
    method HandleChange(field: Field, value: Value)
      requires Valid() && Offered(State(), Edit(field, value))
      modifies this
      ensures State() == Next(old(State()), Edit(field, value))
      ensures formData == Change(old(formData), field, value)
      ensures step == old(step) && submitted == old(submitted)
      ensures Valid()
    {
      NextKeepsInv(State(), Edit(field, value));
      formData := Change(formData, field, value);
    }

    /** The Back button's handler: guarded by `step > 1`. */
    method HandleBack()
      requires Valid() && !submitted
      modifies this
      ensures State() == Next(old(State()), Back)
      ensures Valid()
    {
      NextKeepsInv(State(), Back);
      if step > 1 {
        step := step - 1;
      }
    }

    /** The Continue button's handler: advances only if the current step is valid. */
    method HandleContinue()
      requires Valid() && Offered(State(), Continue)
      modifies this
      ensures State() == Next(old(State()), Continue)
      ensures Valid()
    {
      NextKeepsInv(State(), Continue);
      var valid := if step == 1 then Step1Valid(formData) else Step2Valid(formData);
      if valid {
        step := step + 1;
      }
    }

    /** `handleSubmit`: raises the submitted flag. */
    method HandleSubmit()
      requires Valid() && Offered(State(), Submit)
      modifies this
      ensures State() == Next(old(State()), Submit)
      ensures Valid()
    {
      NextKeepsInv(State(), Submit);
      submitted := true;
    }
  }

  /** The estimated priority band the preview shows for an urgency level. */
  datatype Band = Band(lo: int, hi: int)

  function PreviewBand(severity: Severity): (b: Band)
    ensures 0 <= b.lo < b.hi <= 100
  {
    match severity
    case Critical => Band(85, 95)
    case High => Band(65, 80)
    case _ => Band(40, 60)
  }

  predicate InBand(score: int, b: Band) {
    b.lo <= score <= b.hi
  }

  /** The preview's text: the band's bounds joined by an en dash. */
  function PreviewLabel(severity: Severity): string {
    match severity
    case Critical => "85–95"
    case High => "65–80"
    case _ => "40–60"
  }

  /** The preview bar's width, in percent. */
  function PreviewBarWidth(severity: Severity): int {
    match severity
    case Critical => 90
    case High => 72
    case _ => 50
  }

  /**
   * The label spells out the band's two bounds, and the bar's width falls
   * inside the band; a more urgent level has a band strictly above a less
   * urgent one, except that medium and low share theirs.
   */
  lemma PreviewAgreesWithBand(severity: Severity)
    ensures PreviewLabel(severity) == Decimal(PreviewBand(severity).lo) + "–" + Decimal(PreviewBand(severity).hi)
    ensures InBand(PreviewBarWidth(severity), PreviewBand(severity))
    ensures PreviewBand(High).hi < PreviewBand(Critical).lo
    ensures PreviewBand(Medium).hi < PreviewBand(High).lo
    ensures PreviewBand(Low) == PreviewBand(Medium)
  {
  }

  /**
   * On the shipped catalog, the stored score of every critical, high or
   * medium issue lies in its level's preview band; the one low issue's
   * score does not.
   */
  lemma CatalogScoresInBand()
    ensures forall issue :: issue in ISSUES ==>
      (InBand(issue.priorityScore, PreviewBand(issue.severity)) <==> issue.severity != Low)
  {
  }
}
