/** ExceptionContext (bus/ExceptionContext): what the exception handler is told
    about a failed delivery, namely the bus, the event and the subscriber. */
module ExceptionContexts {
  import opened JavaLang
  import opened Events
  import opened Subscribers

  datatype Context = Context(bus: BusRef, event: Event, subscriber: Subscriber)

  /** new ExceptionContext(eventBus, event, subscriber): each argument must be
      non-null, and the fields then hold exactly the arguments. */
  function NewExceptionContext(bus: Option<BusRef>, event: Option<Event>, subscriber: Option<Subscriber>): (r: Result<Context>)
    ensures r.Ok? <==> bus.Some? && event.Some? && subscriber.Some?
    ensures r.Err? ==> r.error == NullPointer
    ensures r.Ok? ==> r.value.bus == bus.value && r.value.event == event.value && r.value.subscriber == subscriber.value
  {
    if bus.None? then Err(NullPointer)
    else if event.None? then Err(NullPointer)
    else if subscriber.None? then Err(NullPointer)
    else Ok(Context(bus.value, event.value, subscriber.value))
  }
}
