/** The browser-side PIN store (src/store/gameStore.ts): a singleton whose
    only state is the `currentPin` slot of sessionStorage. */
module ClientStore {
  import opened Js
  import opened Pins

  /** The `currentPin` entry of the browser's sessionStorage, which outlives
      the page's scripts. */
  class SessionStorage {
    var currentPin: Option<string>

    constructor (initial: Option<string>)
      ensures currentPin == initial
    {
      currentPin := initial;
    }
  }

  class GameStore {
    const storage: SessionStorage

    /** A usable PIN is stored. */
    ghost predicate Valid()
      reads this, storage
    {
      Present(storage.currentPin)
    }

    /** The private constructor: mints a PIN only when the slot is empty and
        otherwise keeps what is stored. */
    constructor (storage: SessionStorage)
      modifies storage
      ensures this.storage == storage && Valid()
      ensures Present(old(storage.currentPin)) ==> storage.currentPin == old(storage.currentPin)
      ensures !Present(old(storage.currentPin)) ==> storage.currentPin.Some? && IsPin(storage.currentPin.value)
    {
      this.storage := storage;
      new;
      if !Present(storage.currentPin) {
        var pin := ChoosePin();
        storage.currentPin := Some(pin);
      }
    }

    /** `getPin`: the stored PIN, or '' when there is none. */
    method GetPin() returns (pin: string)
      ensures storage.currentPin.Some? ==> pin == storage.currentPin.value
      ensures storage.currentPin.None? ==> pin == ""
    {
      pin := if storage.currentPin.Some? then storage.currentPin.value else "";
    }

    /** `validatePin(inputPin)`: strict equality with the stored PIN. */
    method ValidatePin(inputPin: string) returns (ok: bool)
      ensures ok <==> storage.currentPin == Some(inputPin)
    {
      ok := storage.currentPin.Some? && inputPin == storage.currentPin.value;
    }

    /** `resetPin`: a fresh draw, which may repeat the old PIN. */
    method ResetPin()
      modifies storage
      ensures Valid()
      ensures storage.currentPin.Some? && IsPin(storage.currentPin.value)
    {
      var pin := ChoosePin();
      storage.currentPin := Some(pin);
    }
  }

  /** The class's static `instance` field and the module's exported
      `gameStore = GameStore.getInstance()`. */
  class StoreModule {
    const storage: SessionStorage
    var instance: GameStore?

    ghost predicate Valid()
      reads this
    {
      instance != null ==> instance.storage == storage
    }

    constructor (storage: SessionStorage)
      ensures this.storage == storage && instance == null && Valid()
    {
      this.storage := storage;
      instance := null;
    }

    /** `getInstance`: constructs on the first call only; every call returns
        the same object. */
    method GetInstance() returns (store: GameStore)
      requires Valid()
      modifies this, storage
      ensures Valid() && instance == store && store.storage == storage
      ensures old(instance) != null ==> store == old(instance) && storage.currentPin == old(storage.currentPin)
      ensures old(instance) == null ==> fresh(store)
      ensures old(instance) == null && Present(old(storage.currentPin)) ==> storage.currentPin == old(storage.currentPin)
      ensures old(instance) == null && !Present(old(storage.currentPin)) ==>
                storage.currentPin.Some? && IsPin(storage.currentPin.value)
    {
      if instance == null {
        instance := new GameStore(storage);
      }
      store := instance;
    }
  }
}
