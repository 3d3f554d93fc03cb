/** The Redis commands the services use. A key with a deadline is live while the clock is strictly before it. */
module KeyValue {
  import opened Tables

  datatype Value = Text(text: string) | Number(count: nat)

  datatype Entry = Entry(value: Value, expiresAt: Option<int>)

  predicate Live(entries: map<string, Entry>, now: int, key: string) {
    key in entries && (entries[key].expiresAt.Some? ==> now < entries[key].expiresAt.value)
  }

  /** The deadline of a live key that has one. */
  function DeadlineOf(entries: map<string, Entry>, now: int, key: string): Option<int> {
    if Live(entries, now, key) then entries[key].expiresAt else None
  }

  class Redis {
    var now: int
    var entries: map<string, Entry>

    constructor ()
      ensures entries == map[]
    {
      entries := map[];
    }

    /** The clock moves forward. */
    method Wait(seconds: nat)
      modifies this`now
      ensures now == old(now) + seconds
    {
      now := now + seconds;
    }

    method Get(key: string) returns (value: Option<Value>)
      ensures value == if Live(entries, now, key) then Some(entries[key].value) else None
    {
      value := if Live(entries, now, key) then Some(entries[key].value) else None;
    }

    /** SET key value EX seconds, and SETEX. */
    method SetEx(key: string, value: Value, seconds: int)
      modifies this`entries
      ensures entries == old(entries)[key := Entry(value, Some(now + seconds))]
    {
      entries := entries[key := Entry(value, Some(now + seconds))];
    }

    /** INCR keeps a live key's deadline and starts a missing one at 1 without any. */
    method Incr(key: string) returns (count: nat)
      requires Live(entries, now, key) ==> entries[key].value.Number?
      modifies this`entries
      ensures count == if old(Live(entries, now, key)) then old(entries[key].value.count) + 1 else 1
      ensures entries == old(entries)[key := Entry(Number(count), old(DeadlineOf(entries, now, key)))]
    {
      if Live(entries, now, key) {
        count := entries[key].value.count + 1;
        entries := entries[key := entries[key].(value := Number(count))];
      } else {
        count := 1;
        entries := entries[key := Entry(Number(1), None)];
      }
    }

    method Expire(key: string, seconds: int)
      modifies this`entries
      ensures old(Live(entries, now, key)) ==>
              entries == old(entries)[key := old(entries[key]).(expiresAt := Some(now + seconds))]
      ensures !old(Live(entries, now, key)) ==> entries == old(entries)
    {
      if Live(entries, now, key) {
        entries := entries[key := entries[key].(expiresAt := Some(now + seconds))];
      }
    }

    method Del(key: string)
      modifies this`entries
      ensures entries == old(entries) - {key}
    {
      entries := entries - {key};
    }

    /** DEL with several keys. */
    method DelAll(keys: set<string>)
      modifies this`entries
      ensures entries == old(entries) - keys
    {
      entries := entries - keys;
    }
  }
}
