/** The browser's durable key-value store and the tolerant `storage` wrapper
    the offline mode reads and writes it through. */
module LocalStore {
  import opened Js

  /** What is stored under a key. Values are written as `JSON.stringify`
      text, which `JSON.parse` reads back as the same value; `Empty` is the
      empty text and `Malformed` any text `JSON.parse` rejects (written by
      something outside this layer). */
  datatype Slot = Text(value: JVal) | Empty | Malformed

  type Slots = map<string, Slot>

  /** `storage.get(key)`: the parsed value, or `null` when the key is absent,
      its text is empty or it does not parse. */
  function Read(slots: Slots, key: string): JVal {
    if key in slots && slots[key].Text? then slots[key].value else JNull
  }

  /** The browser's `localStorage`, shared by every part of the client. */
  class LocalStorage {
    var slots: Slots

    constructor (initial: Slots)
      ensures slots == initial
    {
      slots := initial;
    }

    /** `storage.get`: never raises; a missing, empty or corrupt entry reads
        as `null`. */
    method Get(key: string) returns (v: JVal)
      ensures v == Read(slots, key)
      ensures key in slots && slots[key].Text? ==> v == slots[key].value
      ensures key !in slots || slots[key] == Empty || slots[key] == Malformed ==> v == JNull
    {
      if key in slots {
        match slots[key]
        case Text(value) => v := value;
        case Empty => v := JNull;
        case Malformed => v := JNull;
      } else {
        v := JNull;
      }
    }

    /** `storage.set`: stores the value's JSON text under the key. */
    method Set(key: string, value: JVal)
      modifies this
      ensures slots == old(slots)[key := Text(value)]
      ensures Read(slots, key) == value
    {
      slots := slots[key := Text(value)];
    }

    /** `storage.remove`: drops the key; it then reads as `null`. */
    method Remove(key: string)
      modifies this
      ensures slots == old(slots) - {key}
      ensures Read(slots, key) == JNull
    {
      slots := slots - {key};
    }
  }
}
