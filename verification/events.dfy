/** What travels over the bus: ordinary event objects and the DeadEvent wrapper
    (bus/DeadEvent) that the bus re-posts when an event reaches no subscriber. */
module Events {
  import opened JavaLang
  import opened Types

  /** The identity of a heap object (what `==` compares in Java). */
  type ObjRef = nat

  /** The identity of an EventBus instance. */
  type BusRef = nat

  /** An event posted on a bus: any object of some class, or a DeadEvent that
      holds the bus it was posted on and the event that nobody received. */
  datatype Event = Obj(cls: ClassId, ref: ObjRef) | Dead(source: BusRef, event: Event)

  /** event.getClass(): DeadEvent objects all share the class `deadClass`. */
  function ClassOfEvent(e: Event, deadClass: ClassId): ClassId {
    if e.Obj? then e.cls else deadClass
  }

  /** An event whose class the class table knows; DeadEvent is final, so no
      ordinary object is of its class. */
  predicate WellTyped(t: ClassTable, deadClass: ClassId, e: Event) {
    match e
    case Obj(cls, _) => cls in t && cls != deadClass
    case Dead(_, inner) => deadClass in t && WellTyped(t, deadClass, inner)
  }

  /** new DeadEvent(source, event): both arguments must be non-null, and the
      fields then hold exactly the arguments. */
  function NewDeadEvent(source: Option<BusRef>, event: Option<Event>): (r: Result<Event>)
    ensures r.Ok? <==> source.Some? && event.Some?
    ensures r.Err? ==> r.error == NullPointer
    ensures r.Ok? ==> r.value.Dead? && r.value.source == source.value && r.value.event == event.value
  {
    if source.None? then Err(NullPointer)
    else if event.None? then Err(NullPointer)
    else Ok(Dead(source.value, event.value))
  }

  /** EventBus.toString: "[EventBus-" + identifier + "]". */
  function BusString(identifier: string): (r: string)
    ensures |r| == |identifier| + 11
    ensures r[..10] == "[EventBus-" && r[|r| - 1] == ']'
    ensures r[10..|r| - 1] == identifier
  {
    "[EventBus-" + identifier + "]"
  }

  /** DeadEvent.toString: "Dead{" + source + ':' + event + '}', where the
      source is printed through BusString. */
  function DeadString(busIdentifier: string, eventText: string): (r: string)
    ensures |r| == |busIdentifier| + |eventText| + 18
    ensures r[..15] == "Dead{[EventBus-" && r[|r| - 1] == '}'
  {
    "Dead{" + BusString(busIdentifier) + ":" + eventText + "}"
  }

  /** A bus's printed name gives back its identifier, so buses with distinct
      identifiers print differently. */
  lemma BusStringInjective(a: string, b: string)
    ensures BusString(a) == BusString(b) ==> a == b
  {
    if BusString(a) == BusString(b) {
      calc {
        a;
        BusString(a)[10..|BusString(a)| - 1];
        BusString(b)[10..|BusString(b)| - 1];
        b;
      }
    }
  }

  /** For one bus, the printed DeadEvent determines the printed inner event. */
  lemma DeadStringDeterminesEvent(bus: string, e1: string, e2: string)
    ensures DeadString(bus, e1) == DeadString(bus, e2) ==> e1 == e2
  {
    var p := "Dead{" + BusString(bus) + ":";
    assert DeadString(bus, e1) == p + e1 + "}";
    assert DeadString(bus, e2) == p + e2 + "}";
    if DeadString(bus, e1) == DeadString(bus, e2) {
      assert e1 == (p + e1 + "}")[|p|..|p| + |e1|];
      assert e2 == (p + e2 + "}")[|p|..|p| + |e2|];
    }
  }
}
