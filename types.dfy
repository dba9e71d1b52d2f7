/** Values the work-queue engine handles: runtime event types, events and worker handles. */
module Types {

  datatype Option<T> = None | Some(value: T)

  /** A runtime type as the engine keys its tables by it. `fullName` is the type's
      full name (namespace and name); two types from different assemblies can share
      it, so it does not identify the type on its own. */
  datatype EventType = EventType(fullName: string, assembly: string)

  /** An event instance. `ty` is its runtime type (what `GetType()` returns) and
      `fields` stands for the rest of the object, which the engine never inspects. */
  datatype Event = Event(ty: EventType, fields: string)

  /** The handle of a worker thread. Handles are allocated in increasing order. */
  type WorkerId = nat
}
