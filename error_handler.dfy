/**
 * `useErrorHandler` (`src/hooks/useErrorHandler.ts`): the hook that turns
 * whatever was thrown into the one error message a page shows, and clears it.
 * The hook's `error` state is the field of `ErrorState`; the auto-clear timer
 * is not run here, `HandleError` only reports whether one is scheduled.
 */
module ErrorHandler {
  import opened Wrappers
  import Js

  /** The message when nothing better can be extracted. */
  const Unknown := "Error desconocido"

  /** `autoClearDelay` when the caller gives none, in milliseconds. */
  const DefaultAutoClearDelay := 5000

  /** `err && typeof err === 'object' && 'message' in err` */
  predicate CarriesMessage(err: Js.Value) {
    Js.Truthy(err) && Js.IsObjectType(err) && Js.HasProperty(err, "message")
  }

  /**
   * The message shown for a thrown value: an `Error`'s own message, a string
   * itself, `String(err.message)` for another object with a `message`, and
   * "Error desconocido" for anything else.
   */
  function Message(err: Js.Value): (m: string)
    ensures err.ErrorObj? ==> m == err.message
    ensures err.Str? ==> m == err.s
    ensures !err.ErrorObj? && !err.Str? && CarriesMessage(err) ==> m == Js.ToDisplayString(Js.Get(err, "message"))
    ensures !err.ErrorObj? && !err.Str? && !CarriesMessage(err) ==> m == Unknown
  {
    if err.ErrorObj? then err.message
    else if err.Str? then err.s
    else if CarriesMessage(err) then Js.ToDisplayString(Js.Get(err, "message"))
    else Unknown
  }

  /** Only plain objects can carry a `message` besides errors: arrays, blobs and primitives give "Error desconocido". */
  lemma OnlyObjectsCarryMessages(err: Js.Value)
    requires !err.ErrorObj? && !err.Obj? && !err.Str?
    ensures Message(err) == Unknown
  {
  }

  /** An object whose `message` is a string shows that string, as an `Error` with that message does. */
  lemma MessageFieldLikeError(entries: seq<(string, Js.Value)>, s: string)
    requires entries != [] && entries[0] == ("message", Js.Str(s))
    ensures Message(Js.Obj(entries)) == s == Message(Js.ErrorObj(s))
  {
    assert Js.HasProperty(Js.Obj(entries), "message") by {
      assert entries[0].0 == "message";
    }
  }

  /** The hook's state: the message shown, if any, and the delay it was created with. */
  class ErrorState {
    const autoClearDelay: int
    var error: Option<string>

    /** `useErrorHandler(autoClearDelay = 5000)`: no error to begin with. */
    constructor(delay: Option<int>)
      ensures autoClearDelay == delay.GetOr(DefaultAutoClearDelay)
      ensures error == None
    {
      autoClearDelay := delay.GetOr(DefaultAutoClearDelay);
      error := None;
    }

    /**
     * `handleError(err)`: shows the message of `err`, replacing any earlier
     * one, and reports whether the auto-clear timer is started.
     */
    method HandleError(err: Js.Value) returns (clearScheduled: bool)
      modifies this
      ensures error == Some(Message(err))
      ensures clearScheduled <==> autoClearDelay > 0
    {
      var message := Unknown;
      if err.ErrorObj? {
        message := err.message;
      } else if err.Str? {
        message := err.s;
      } else if CarriesMessage(err) {
        message := Js.ToDisplayString(Js.Get(err, "message"));
      }
      error := Some(message);
      clearScheduled := autoClearDelay > 0;
    }

    /** `clearError()`, and the callback of the auto-clear timer: no message is shown. */
    method ClearError()
      modifies this
      ensures error == None
    {
      error := None;
    }
  }
}
