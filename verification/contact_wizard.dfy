/** The two-step contact wizard of components/ui/ContactModal.tsx, composed with the
    shared modal visibility. Handlers are pure updates of the wizard state; the two
    `setTimeout` callbacks of `handleSubmit` are discrete events taken from a queue of
    pending timers; which controls are on screen and enabled decides which user
    events can happen at all. */
module ContactWizard {
  import ModalContext
  import ServiceList
  import opened ContactForm

  /** Step 1 ("Your Details") and step 2 ("Project Info"). */
  datatype Step = Details | ProjectInfo

  datatype Wizard = Wizard(step: Step, isSubmitting: bool, isSubmitted: bool, form: FormData)

  const InitialWizard: Wizard := Wizard(Details, false, false, Empty)

  // ---- handlers on the wizard state ----

  /** `handleInputChange` for the control whose `name` is `field`. */
  function HandleInputChange(w: Wizard, field: Field, value: string): (r: Wizard)
    ensures Get(r.form, field) == value
    ensures forall other :: other != field ==> Get(r.form, other) == Get(w.form, other)
    ensures r.form.services == w.form.services
    ensures r.step == w.step && r.isSubmitting == w.isSubmitting && r.isSubmitted == w.isSubmitted
  {
    w.(form := SetField(w.form, field, value))
  }

  /** `handleServiceToggle`. */
  function HandleServiceToggle(w: Wizard, service: string): (r: Wizard)
    ensures service in r.form.services <==> service !in w.form.services
    ensures forall x {:trigger x in r.form.services} :: x != service ==> (x in r.form.services <==> x in w.form.services)
    ensures forall field :: Get(r.form, field) == Get(w.form, field)
    ensures r.step == w.step && r.isSubmitting == w.isSubmitting && r.isSubmitted == w.isSubmitted
  {
    ServiceList.ToggleMembership(w.form.services, service);
    w.(form := w.form.(services := ServiceList.Toggle(w.form.services, service)))
  }

  /** A click on Continue: `setStep(2)`, or nothing while the button is disabled
      because the step-1 gate is false. */
  function ClickContinue(w: Wizard): (r: Wizard)
    ensures IsStep1Valid(w.form) ==> r.step == ProjectInfo
    ensures !IsStep1Valid(w.form) ==> r == w
    ensures r.form == w.form && r.isSubmitting == w.isSubmitting && r.isSubmitted == w.isSubmitted
  {
    if IsStep1Valid(w.form) then w.(step := ProjectInfo) else w
  }

  /** A click on Back: `setStep(1)`. */
  function ClickBack(w: Wizard): (r: Wizard)
    ensures r.step == Details
    ensures r.form == w.form && r.isSubmitting == w.isSubmitting && r.isSubmitted == w.isSubmitted
  {
    w.(step := Details)
  }

  /** `handleSubmit` up to its `await`: `setIsSubmitting(true)`. */
  function HandleSubmit(w: Wizard): (r: Wizard)
    ensures r.isSubmitting
    ensures r.form == w.form && r.step == w.step && r.isSubmitted == w.isSubmitted
  {
    w.(isSubmitting := true)
  }

  /** The simulated request completes: `setIsSubmitting(false)`, `setIsSubmitted(true)`. */
  function SubmitDelayElapsed(w: Wizard): (r: Wizard)
    ensures !r.isSubmitting && r.isSubmitted
    ensures r.form == w.form && r.step == w.step
  {
    w.(isSubmitting := false, isSubmitted := true)
  }

  /** The reset callback's wizard part: `setIsSubmitted(false)`, `setStep(1)` and
      the form cleared. */
  function ResetDelayElapsed(w: Wizard): (r: Wizard)
    ensures !r.isSubmitted && r.step == Details
    ensures forall field :: Get(r.form, field) == ""
    ensures r.form.services == []
    ensures r.isSubmitting == w.isSubmitting
  {
    w.(isSubmitted := false, step := Details, form := Empty)
  }

  /** The reset callback never touches `isSubmitting`, so it lands on the state the
      component starts in exactly when no submission is in flight. */
  lemma ResetIsInitial(w: Wizard)
    ensures ResetDelayElapsed(w) == InitialWizard <==> !w.isSubmitting
  {
    FieldsDetermineForm(ResetDelayElapsed(w).form, Empty);
  }

  // ---- the modal as a whole: visibility, wizard and pending timers ----

  /** The two callbacks `handleSubmit` schedules: the 1500 ms wait standing in for
      the request, and the 3000 ms reset after the confirmation. */
  datatype Timer = SubmitDelay | ResetDelay

  datatype App = App(modal: ModalContext.Visibility, wizard: Wizard, pending: seq<Timer>)

  const Init: App := App(ModalContext.Initial, InitialWizard, [])

  datatype Event =
    | OpenModal                             // any trigger calling `openModal`
    | CloseModal                            // the backdrop or the close button
    | Input(field: Field, value: string)    // a change in one input, select or textarea
    | ToggleService(service: string)        // a service button
    | Continue
    | Back
    | Submit                                // the footer's submit button
    | TimerFires                            // the earliest pending timer runs

  /** The form and footer are rendered: the modal is open and the confirmation is not shown. */
  predicate FormShown(a: App) {
    a.modal.isOpen && !a.wizard.isSubmitted
  }

  /** Whether the event can happen: its control is rendered and enabled, or its
      timer is pending. */
  predicate Available(a: App, e: Event) {
    match e
    case OpenModal => true
    case CloseModal => a.modal.isOpen
    case Input(field, value) =>
      && FormShown(a)
      && (field.OnFirstStep() <==> a.wizard.step == Details)
      && (field == Budget ==> SelectValue(value, BudgetRanges))
      && (field == Timeline ==> SelectValue(value, Timelines))
    case ToggleService(service) =>
      FormShown(a) && a.wizard.step == ProjectInfo && service in Services
    case Continue =>
      FormShown(a) && a.wizard.step == Details && IsStep1Valid(a.wizard.form)
    case Back =>
      FormShown(a) && a.wizard.step == ProjectInfo
    case Submit =>
      FormShown(a) && a.wizard.step == ProjectInfo && !a.wizard.isSubmitting
    case TimerFires =>
      |a.pending| > 0
  }

  /** The effect of an event. */
  function Apply(a: App, e: Event): App {
    match e
    case OpenModal => a.(modal := ModalContext.OpenModal(a.modal))
    case CloseModal => a.(modal := ModalContext.CloseModal(a.modal))
    case Input(field, value) => a.(wizard := HandleInputChange(a.wizard, field, value))
    case ToggleService(service) => a.(wizard := HandleServiceToggle(a.wizard, service))
    case Continue => a.(wizard := ClickContinue(a.wizard))
    case Back => a.(wizard := ClickBack(a.wizard))
    case Submit => a.(wizard := HandleSubmit(a.wizard), pending := a.pending + [SubmitDelay])
    case TimerFires =>
      if |a.pending| == 0 then a
      else match a.pending[0]
        case SubmitDelay =>
          a.(wizard := SubmitDelayElapsed(a.wizard), pending := a.pending[1..] + [ResetDelay])
        case ResetDelay =>
          App(ModalContext.CloseModal(a.modal), ResetDelayElapsed(a.wizard), a.pending[1..])
  }

  /** An event that cannot happen leaves the state as it is. */
  function Dispatch(a: App, e: Event): App {
    if Available(a, e) then Apply(a, e) else a
  }

  function Run(a: App, es: seq<Event>): App
    decreases |es|
  {
    if |es| == 0 then a else Run(Dispatch(a, es[0]), es[1..])
  }

  /** The timers pending in each submission phase. */
  function PendingFor(w: Wizard): seq<Timer> {
    if w.isSubmitting then [SubmitDelay] else if w.isSubmitted then [ResetDelay] else []
  }

  /** What holds in every state the modal can reach. */
  predicate Inv(a: App) {
    && ModalContext.Consistent(a.modal)
    && !(a.wizard.isSubmitting && a.wizard.isSubmitted)
    && a.pending == PendingFor(a.wizard)
    && WellFormed(a.wizard.form)
    && (a.wizard.step == ProjectInfo ==> IsStep1Valid(a.wizard.form))
  }

  lemma InitInv()
    ensures Inv(Init)
  {
    EmptyWellFormed();
  }

  lemma InputKeepsInv(a: App, field: Field, value: string)
    requires Inv(a) && Available(a, Input(field, value))
    ensures Inv(Apply(a, Input(field, value)))
  {
    var r := Apply(a, Input(field, value));
    assert Get(r.wizard.form, Budget) == r.wizard.form.budget;
    assert Get(r.wizard.form, Timeline) == r.wizard.form.timeline;
    assert Get(a.wizard.form, Budget) == a.wizard.form.budget;
    assert Get(a.wizard.form, Timeline) == a.wizard.form.timeline;
    if a.wizard.step == ProjectInfo {
      GateIgnoresOptionalFields(a.wizard.form, field, value, "");
    }
  }

  lemma ToggleKeepsInv(a: App, service: string)
    requires Inv(a) && Available(a, ToggleService(service))
    ensures Inv(Apply(a, ToggleService(service)))
  {
    ServiceList.ToggleKeepsNoDuplicates(a.wizard.form.services, service);
    GateIgnoresOptionalFields(a.wizard.form, Message, a.wizard.form.message, service);
    var r := Apply(a, ToggleService(service));
    assert Get(r.wizard.form, Budget) == Get(a.wizard.form, Budget);
    assert Get(r.wizard.form, Timeline) == Get(a.wizard.form, Timeline);
  }

  /** Every event that can happen keeps the invariant. */
  lemma ApplyKeepsInv(a: App, e: Event)
    requires Inv(a) && Available(a, e)
    ensures Inv(Apply(a, e))
  {
    match e
    case Input(field, value) => InputKeepsInv(a, field, value);
    case ToggleService(service) => ToggleKeepsInv(a, service);
    case TimerFires =>
      if a.wizard.isSubmitted {
        ResetIsInitial(a.wizard);
        EmptyWellFormed();
      }
    case _ =>
  }

  lemma {:induction false} RunKeepsInv(a: App, es: seq<Event>)
    requires Inv(a)
    ensures Inv(Run(a, es))
    decreases |es|
  {
    if |es| > 0 {
      if Available(a, es[0]) {
        ApplyKeepsInv(a, es[0]);
      }
      RunKeepsInv(Dispatch(a, es[0]), es[1..]);
    }
  }

  /** In every reachable state the wizard is never submitting and submitted at once,
      scrolling is suppressed exactly while the modal is open, and step 2 is shown
      only for a form that passes the step-1 gate. */
  lemma Reachable(es: seq<Event>)
    ensures var a := Run(Init, es);
      && !(a.wizard.isSubmitting && a.wizard.isSubmitted)
      && (a.modal.isOpen <==> a.modal.bodyOverflow == ModalContext.Hidden)
      && (a.wizard.step == ProjectInfo ==> IsStep1Valid(a.wizard.form))
      && ServiceList.NoDuplicates(a.wizard.form.services)
  {
    InitInv();
    RunKeepsInv(Init, es);
  }

  // ---- properties of single events ----

  /** Continue can be pressed exactly on step 1 of the shown form when the four
      required fields are filled; pressed or not, the form is unchanged. */
  lemma ContinueGate(a: App)
    requires FormShown(a) && a.wizard.step == Details
    ensures Available(a, Continue) <==> IsStep1Valid(a.wizard.form)
    ensures Dispatch(a, Continue).wizard.step == ProjectInfo <==> IsStep1Valid(a.wizard.form)
    ensures Dispatch(a, Continue).wizard.form == a.wizard.form
  {
  }

  /** Back and then Continue returns to the very same state: Back keeps every
      field, including the step-2 ones. */
  lemma BackThenContinue(a: App)
    requires Inv(a) && Available(a, Back)
    ensures Dispatch(a, Back).wizard.form == a.wizard.form
    ensures Available(Dispatch(a, Back), Continue)
    ensures Dispatch(Dispatch(a, Back), Continue) == a
  {
  }

  /** A manual close hides the modal and touches neither the step, the form nor the
      submission flags; a pending timer still fires afterwards. */
  lemma ManualCloseKeepsWizard(a: App)
    requires Available(a, CloseModal)
    ensures Dispatch(a, CloseModal).wizard == a.wizard
    ensures Dispatch(a, CloseModal).pending == a.pending
    ensures !Dispatch(a, CloseModal).modal.isOpen
  {
  }

  /** Submit is offered only on step 2 while no submission is in flight; it sets
      `isSubmitting` and schedules the first timer, changing nothing else. */
  lemma SubmitStarts(a: App)
    requires Inv(a) && Available(a, Submit)
    ensures a.wizard.step == ProjectInfo && !a.wizard.isSubmitting && !a.wizard.isSubmitted
    ensures var r := Dispatch(a, Submit);
      && r.wizard == a.wizard.(isSubmitting := true)
      && r.pending == [SubmitDelay]
      && r.modal == a.modal
  {
  }

  /** While submitting, the first timer moves to the confirmation and schedules the reset. */
  lemma SubmittingCompletes(a: App)
    requires Inv(a) && a.wizard.isSubmitting
    ensures Available(a, TimerFires)
    ensures var r := Dispatch(a, TimerFires);
      && !r.wizard.isSubmitting && r.wizard.isSubmitted
      && r.wizard.form == a.wizard.form && r.wizard.step == a.wizard.step
      && r.pending == [ResetDelay]
  {
  }

  /** After the confirmation, the reset closes the modal and returns the whole
      state, open or manually closed before, to the initial one. */
  lemma ResetReturnsToInit(a: App)
    requires Inv(a) && a.wizard.isSubmitted
    ensures Available(a, TimerFires)
    ensures Dispatch(a, TimerFires) == Init
  {
    ResetIsInitial(a.wizard);
  }

  /** The draft is not frozen while the request is in flight: with the form on step 2,
      Back and the step-2 inputs stay available. */
  lemma EditableWhileSubmitting(a: App, message: string)
    requires Inv(a) && a.wizard.isSubmitting && a.modal.isOpen && a.wizard.step == ProjectInfo
    ensures Available(a, Back)
    ensures Available(a, Input(Message, message))
    ensures Dispatch(a, Input(Message, message)).wizard.form.message == message
    ensures Dispatch(a, Input(Message, message)).wizard.isSubmitting
    ensures !Available(a, Submit)
  {
  }

  /** One more event at the end of a run. */
  lemma {:induction false} RunSnoc(a: App, es: seq<Event>, e: Event)
    ensures Run(a, es + [e]) == Dispatch(Run(a, es), e)
    decreases |es|
  {
    if |es| == 0 {
      assert es + [e] == [e];
      assert Run(Dispatch(a, e), []) == Dispatch(a, e);
    } else {
      assert (es + [e])[1..] == es[1..] + [e];
      RunSnoc(Dispatch(a, es[0]), es[1..], e);
    }
  }

  /** One accepted keystroke in a shown field. */
  lemma InputStep(a: App, field: Field, value: string)
    requires FormShown(a) && (field.OnFirstStep() <==> a.wizard.step == Details)
    requires field != Budget && field != Timeline
    ensures Dispatch(a, Input(field, value)) == a.(wizard := a.wizard.(form := SetField(a.wizard.form, field, value)))
  {
  }

  /** One click on Continue with the gate open. */
  lemma ContinueStep(a: App)
    requires FormShown(a) && a.wizard.step == Details && IsStep1Valid(a.wizard.form)
    ensures Dispatch(a, Continue) == a.(wizard := a.wizard.(step := ProjectInfo))
  {
  }

  /** One click on a service button. */
  lemma ToggleStep(a: App, service: string)
    requires FormShown(a) && a.wizard.step == ProjectInfo && service in Services
    ensures Dispatch(a, ToggleService(service)) ==
      a.(wizard := a.wizard.(form := a.wizard.form.(services := ServiceList.Toggle(a.wizard.form.services, service))))
  {
  }

  const JaneForm: FormData := FormData("Jane Doe", "jane@acme.com", "Acme", "555-0100", [], "", "", "", "")

  /** Open the modal and fill in step 1. */
  const FillDetails: seq<Event> :=
    [OpenModal, Input(Name, "Jane Doe"), Input(Email, "jane@acme.com"),
     Input(Company, "Acme"), Input(Phone, "555-0100")]

  /** Continue, then pick two services. */
  const PickServices: seq<Event> :=
    [Continue, ToggleService("Public Relations"), ToggleService("Event Management")]

  lemma FillDetailsRun()
    ensures Run(Init, FillDetails) == App(ModalContext.Visibility(true, ModalContext.Hidden),
                                          Wizard(Details, false, false, JaneForm), [])
  {
    var open := ModalContext.Visibility(true, ModalContext.Hidden);
    var s1 := App(open, InitialWizard, []);
    var s2 := s1.(wizard := s1.wizard.(form := SetField(s1.wizard.form, Name, "Jane Doe")));
    var s3 := s2.(wizard := s2.wizard.(form := SetField(s2.wizard.form, Email, "jane@acme.com")));
    var s4 := s3.(wizard := s3.wizard.(form := SetField(s3.wizard.form, Company, "Acme")));
    var s5 := s4.(wizard := s4.wizard.(form := SetField(s4.wizard.form, Phone, "555-0100")));
    assert Dispatch(Init, OpenModal) == s1;
    InputStep(s1, Name, "Jane Doe");
    InputStep(s2, Email, "jane@acme.com");
    InputStep(s3, Company, "Acme");
    InputStep(s4, Phone, "555-0100");
    assert s5.wizard.form == JaneForm;
    calc {
      Run(Init, FillDetails);
      { RunCons(Init, FillDetails); }
      Run(s1, FillDetails[1..]);
      { RunCons(s1, FillDetails[1..]); }
      Run(s2, FillDetails[2..]);
      { RunCons(s2, FillDetails[2..]); }
      Run(s3, FillDetails[3..]);
      { RunCons(s3, FillDetails[3..]); }
      Run(s4, FillDetails[4..]);
      { RunCons(s4, FillDetails[4..]); }
      Run(s5, []);
    }
  }

  /** `Run` takes the first event, then the rest. */
  lemma RunCons(a: App, es: seq<Event>)
    requires |es| > 0
    ensures Run(a, es) == Run(Dispatch(a, es[0]), es[1..])
  {
  }

  lemma PickServicesRun(a: App)
    requires FormShown(a) && a.wizard.step == Details && a.wizard.form == JaneForm
    ensures Run(a, PickServices) ==
      a.(wizard := a.wizard.(step := ProjectInfo, form := JaneForm.(services := ["Public Relations", "Event Management"])))
  {
    var a1 := a.(wizard := a.wizard.(step := ProjectInfo));
    var a2 := a1.(wizard := a1.wizard.(form := JaneForm.(services := ServiceList.Toggle([], "Public Relations"))));
    var a3 := a2.(wizard := a2.wizard.(form := JaneForm.(services :=
      ServiceList.Toggle(ServiceList.Toggle([], "Public Relations"), "Event Management"))));
    ContinueStep(a);
    ToggleStep(a1, "Public Relations");
    ToggleStep(a2, "Event Management");
    assert ServiceList.Toggle([], "Public Relations") == ["Public Relations"];
    assert ServiceList.Toggle(["Public Relations"], "Event Management") == ["Public Relations", "Event Management"];
    calc {
      Run(a, PickServices);
      { RunCons(a, PickServices); }
      Run(a1, PickServices[1..]);
      { RunCons(a1, PickServices[1..]); }
      Run(a2, PickServices[2..]);
      { RunCons(a2, PickServices[2..]); }
      Run(a3, []);
    }
  }

  /** A complete visit: open, fill step 1, continue, pick two services, submit, and let
      both timers run; the state ends where it started. */
  lemma EndToEnd()
    ensures var filled := FillDetails + PickServices;
      && Run(Init, filled).wizard.step == ProjectInfo
      && Run(Init, filled).wizard.form.services == ["Public Relations", "Event Management"]
      && Run(Init, filled + [Submit]).wizard.isSubmitting
      && Run(Init, filled + [Submit, TimerFires]).wizard.isSubmitted
      && !Run(Init, filled + [Submit, TimerFires]).wizard.isSubmitting
      && Run(Init, filled + [Submit, TimerFires, TimerFires]) == Init
  {
    var filled := FillDetails + PickServices;
    var a7 := Run(Init, filled);
    assert a7 == App(ModalContext.Visibility(true, ModalContext.Hidden),
      Wizard(ProjectInfo, false, false, JaneForm.(services := ["Public Relations", "Event Management"])), []) by {
      FillDetailsRun();
      RunAppend(Init, FillDetails, PickServices);
      PickServicesRun(Run(Init, FillDetails));
    }
    var a8 := Dispatch(a7, Submit);
    assert a8.wizard.isSubmitting && !a8.wizard.isSubmitted && a8.pending == [SubmitDelay];
    var a9 := Dispatch(a8, TimerFires);
    assert a9.wizard.isSubmitted && !a9.wizard.isSubmitting && a9.pending == [ResetDelay];
    var a10 := Dispatch(a9, TimerFires);
    assert a10 == Init by { ResetIsInitial(a9.wizard); }
    assert Run(Init, filled + [Submit]) == a8 by {
      RunSnoc(Init, filled, Submit);
    }
    assert Run(Init, filled + [Submit, TimerFires]) == a9 by {
      assert filled + [Submit, TimerFires] == (filled + [Submit]) + [TimerFires];
      RunSnoc(Init, filled + [Submit], TimerFires);
    }
    assert Run(Init, filled + [Submit, TimerFires, TimerFires]) == a10 by {
      assert filled + [Submit, TimerFires, TimerFires] == (filled + [Submit, TimerFires]) + [TimerFires];
      RunSnoc(Init, filled + [Submit, TimerFires], TimerFires);
    }
  }

  lemma {:induction false} RunAppend(a: App, xs: seq<Event>, ys: seq<Event>)
    ensures Run(a, xs + ys) == Run(Run(a, xs), ys)
    decreases |xs|
  {
    if |xs| == 0 {
      assert xs + ys == ys;
    } else {
      assert (xs + ys)[1..] == xs[1..] + ys;
      RunAppend(Dispatch(a, xs[0]), xs[1..], ys);
    }
  }
}
