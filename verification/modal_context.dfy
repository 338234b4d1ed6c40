/** The shared visibility state of the contact modal (lib/contact-modal-context.tsx):
    whether the modal is open, and the inline `overflow` style of the document body,
    kept here as an abstract string field. */
module ModalContext {
  import opened Results

  datatype Visibility = Visibility(isOpen: bool, bodyOverflow: string)

  /** The body's inline overflow style while the modal suppresses page scrolling. */
  const Hidden: string := "hidden"

  /** The provider starts closed; the body's inline overflow style starts unset. */
  const Initial: Visibility := Visibility(false, "")

  /** Scroll is suppressed exactly while the modal is open. */
  predicate Consistent(v: Visibility) {
    v.isOpen <==> v.bodyOverflow == Hidden
  }

  /** `openModal`: show the modal and suppress page scrolling. */
  function OpenModal(v: Visibility): (r: Visibility)
    ensures r.isOpen && r.bodyOverflow == Hidden
    ensures Consistent(r)
  {
    Visibility(true, Hidden)
  }

  /** `closeModal`: hide the modal and restore the body's overflow style. */
  function CloseModal(v: Visibility): (r: Visibility)
    ensures !r.isOpen && r.bodyOverflow == ""
    ensures Consistent(r)
    ensures r == Initial
  {
    Visibility(false, "")
  }

  lemma OpenIdempotent(v: Visibility)
    ensures OpenModal(OpenModal(v)) == OpenModal(v)
  {
  }

  lemma CloseIdempotent(v: Visibility)
    ensures CloseModal(CloseModal(v)) == CloseModal(v)
  {
  }

  /** A call any trigger in the component tree can make on the context. */
  datatype Call = Open | Close

  function Apply(v: Visibility, c: Call): (r: Visibility)
    ensures r.isOpen <==> c == Open
    ensures Consistent(r)
  {
    match c
    case Open => OpenModal(v)
    case Close => CloseModal(v)
  }

  /** The state after a sequence of calls, in order. */
  function Run(v: Visibility, calls: seq<Call>): Visibility
    decreases |calls|
  {
    if |calls| == 0 then v else Run(Apply(v, calls[0]), calls[1..])
  }

  /** From a consistent state (the initial one in particular), every sequence of
      calls keeps `isOpen` and the hidden overflow style in step. */
  lemma {:induction false} RunKeepsConsistent(v: Visibility, calls: seq<Call>)
    requires Consistent(v)
    ensures Consistent(Run(v, calls))
    decreases |calls|
  {
    if |calls| > 0 {
      RunKeepsConsistent(Apply(v, calls[0]), calls[1..]);
    }
  }

  /** The last call alone decides the final state. */
  lemma {:induction false} LastCallDecides(v: Visibility, calls: seq<Call>)
    requires |calls| > 0
    ensures Run(v, calls) == Apply(v, calls[|calls| - 1])
    decreases |calls|
  {
    if |calls| > 1 {
      LastCallDecides(Apply(v, calls[0]), calls[1..]);
    }
  }

  lemma OpenCloseOpen()
    ensures Run(Initial, [Open, Close, Open]) == Visibility(true, Hidden)
  {
    LastCallDecides(Initial, [Open, Close, Open]);
  }

  /** `useContactModal`: the context value when a provider is above the caller,
      and the thrown error when there is none. */
  const OutsideProviderMessage: string := "useContactModal must be used within a ContactModalProvider"

  function UseContactModal(provided: Option<Visibility>): (r: Result<Visibility>)
    ensures r.Err? <==> provided.None?
    ensures r.Ok? ==> r.value == provided.value
    ensures r.Err? ==> r.message == OutsideProviderMessage
  {
    match provided
    case None => Err(OutsideProviderMessage)
    case Some(v) => Ok(v)
  }
}
