/**
 * The key-value store: RedisMap, a map from key to an entry holding a value
 * and an optional absolute expiry instant. Expiry is lazy: an entry whose
 * expiry is not strictly after the current instant is removed when it is
 * read, and never otherwise.
 *
 * Instants are integers counting nanoseconds; the wall clock is the `now`
 * parameter of the operations that consult it.
 */
module Store {
  import opened GoLib

  datatype Option<T> = None | Some(value: T)

  /** RedisMapValue: a value and, when it expires, the instant it does. */
  datatype Entry = Entry(value: string, expiry: Option<int>)

  const Millisecond: int := 1_000_000
  const Second: int := 1_000_000_000

  /** The nanoseconds one TTL unit stands for: PX milliseconds, EX seconds, anything else nanoseconds. */
  function UnitNanos(expiryType: string): int {
    if ToUpper(expiryType) == "PX" then Millisecond
    else if ToUpper(expiryType) == "EX" then Second
    else 1
  }

  /**
   * The time.Duration of a TTL: the count times its unit, computed in int64
   * and so wrapping around when the product does not fit.
   */
  function TtlDuration(expiryType: string, expiryTime: Int64): (d: Int64)
    ensures MinInt64 <= expiryTime * UnitNanos(expiryType) <= MaxInt64 ==>
      d == expiryTime * UnitNanos(expiryType)
    ensures (expiryTime * UnitNanos(expiryType) - d) % TwoTo64 == 0
  {
    if ToUpper(expiryType) == "PX" then Wrap64(expiryTime * Millisecond)
    else if ToUpper(expiryType) == "EX" then Wrap64(expiryTime * Second)
    else expiryTime
  }

  /** An entry may still be returned at `now`: it has no expiry, or its expiry lies strictly after now. */
  predicate Live(e: Entry, now: int) {
    e.expiry.None? || e.expiry.value > now
  }

  /** What a client can observe of the store at `now`: the keys of live entries and their values. */
  function Visible(m: map<string, Entry>, now: int): map<string, string> {
    map k | k in m && Live(m[k], now) :: m[k].value
  }

  /** What getValue returns, and the map it leaves behind. */
  datatype GetOutcome = GetOutcome(value: string, found: bool, entries: map<string, Entry>)

  /** getValue on map m at instant now. */
  function Get(m: map<string, Entry>, key: string, now: int): GetOutcome {
    if key in m then
      var entry := m[key];
      if entry.expiry.Some? then
        if entry.expiry.value > now then GetOutcome(entry.value, true, m)
        else GetOutcome("", false, m - {key})
      else GetOutcome(entry.value, true, m)
    else GetOutcome("", false, m)
  }

  class RedisMap {
    var entries: map<string, Entry>

    constructor ()
      ensures entries == map[]
    {
      entries := map[];
    }

    /** setValue: store value under key with no expiry, replacing any earlier entry. */
    method SetValue(key: string, value: string)
      modifies this
      ensures entries == old(entries)[key := Entry(value, None)]
      ensures forall now :: Visible(entries, now) == Visible(old(entries), now)[key := value]
    {
      entries := entries[key := Entry(value, None)];
      forall now ensures Visible(entries, now) == Visible(old(entries), now)[key := value] {
        SetVisible(old(entries), key, value, now);
      }
    }

    /** setValueWithExpiry: store value under key, expiring a TTL after now. */
    method SetValueWithExpiry(key: string, value: string, expiryType: string, expiryTime: Int64, now: int)
      modifies this
      ensures entries == old(entries)[key := Entry(value, Some(now + TtlDuration(expiryType, expiryTime)))]
    {
      var duration: Int64 := expiryTime;
      if ToUpper(expiryType) == "PX" {
        duration := Wrap64(duration * Millisecond);
      } else if ToUpper(expiryType) == "EX" {
        duration := Wrap64(duration * Second);
      }
      var expiry := now + duration;
      entries := entries[key := Entry(value, Some(expiry))];
    }

    /**
     * getValue: the value under key if its entry is live at now; an entry
     * that has expired is deleted on the spot.
     */
    method GetValue(key: string, now: int) returns (value: string, found: bool)
      modifies this
      ensures GetOutcome(value, found, entries) == Get(old(entries), key, now)
      ensures found <==> key in Visible(old(entries), now)
      ensures found ==> value == Visible(old(entries), now)[key]
      ensures found ==> entries == old(entries)
      ensures !found ==> value == "" && key !in entries
      ensures Visible(entries, now) == Visible(old(entries), now)
    {
      GetAgreesWithVisible(entries, key, now);
      if key in entries {
        var entry := entries[key];
        if entry.expiry.Some? {
          if entry.expiry.value > now {
            return entry.value, true;
          } else {
            entries := entries - {key};
            return "", false;
          }
        } else if entry.expiry.None? {
          return entry.value, true;
        }
      }
      return "", false;
    }
  }

  // ---------------------------------------------------------------------------
  // Properties of the store's operations

  /** Storing without expiry makes the value visible under key at every instant, and changes nothing else. */
  lemma SetVisible(m: map<string, Entry>, key: string, value: string, now: int)
    ensures Visible(m[key := Entry(value, None)], now) == Visible(m, now)[key := value]
  {
    var m' := m[key := Entry(value, None)];
    assert Visible(m', now).Keys == Visible(m, now).Keys + {key};
  }

  /**
   * getValue reports exactly what is visible. A read that finds the key
   * leaves the map as it was; the deletion of an expired entry is not
   * observable, touches no other key, and leaves the key absent.
   */
  lemma GetAgreesWithVisible(m: map<string, Entry>, key: string, now: int)
    ensures Get(m, key, now).found <==> key in Visible(m, now)
    ensures Get(m, key, now).found ==> Get(m, key, now).value == Visible(m, now)[key]
    ensures Get(m, key, now).found ==> Get(m, key, now).entries == m
    ensures !Get(m, key, now).found ==> Get(m, key, now).value == "" && key !in Get(m, key, now).entries
    ensures Visible(Get(m, key, now).entries, now) == Visible(m, now)
    ensures forall k :: k != key ==>
      (k in Get(m, key, now).entries <==> k in m) &&
      (k in m ==> Get(m, key, now).entries[k] == m[k])
  {
    var o := Get(m, key, now);
    assert Visible(o.entries, now).Keys == Visible(m, now).Keys;
  }

  /** A second getValue at the same instant returns what the first did and changes nothing. */
  lemma GetIdempotent(m: map<string, Entry>, key: string, now: int)
    ensures var first := Get(m, key, now);
      Get(first.entries, key, now) == first
  {
  }

  /** After setValue, an immediate getValue finds the new value, whatever was stored before. */
  lemma SetThenGet(m: map<string, Entry>, key: string, value: string, now: int)
    ensures var m' := m[key := Entry(value, None)];
      Get(m', key, now) == GetOutcome(value, true, m')
  {
  }

  /**
   * With a positive TTL that does not overflow, the value is found at every
   * instant before now + TTL, and from that instant on it is gone: not found,
   * and deleted from the map by the read.
   */
  lemma SetWithExpiryThenGet(m: map<string, Entry>, key: string, value: string,
                             expiryType: string, expiryTime: Int64, now: int, later: int)
    requires 0 < expiryTime && expiryTime * UnitNanos(expiryType) <= MaxInt64
    requires now <= later
    ensures var expiry := now + expiryTime * UnitNanos(expiryType);
      var m' := m[key := Entry(value, Some(now + TtlDuration(expiryType, expiryTime)))];
      && (later < expiry ==> Get(m', key, later) == GetOutcome(value, true, m'))
      && (later >= expiry ==> Get(m', key, later) == GetOutcome("", false, m' - {key}))
  {
    assert UnitNanos(expiryType) >= 1;
    assert expiryTime * UnitNanos(expiryType) >= expiryTime;
  }

  /**
   * A PX count clamped to MaxInt64 (by Atoi, on a count whose digits pass the
   * int64 range) wraps around in time.Duration to minus one millisecond, so
   * the entry is stored already expired.
   */
  lemma ClampedPxWrapsToThePast(unit: string)
    requires ToUpper(unit) == "PX"
    ensures TtlDuration(unit, MaxInt64) == -Millisecond
  {
    assert MaxInt64 * Millisecond - MinInt64 == 500_000 * TwoTo64 + (TwoTo64 / 2 - Millisecond);
  }

  /** Expiry is permanent: what is visible later was visible earlier, with the same value. */
  lemma {:induction false} VisibleShrinksOverTime(m: map<string, Entry>, now: int, later: int)
    requires now <= later
    ensures Visible(m, later).Keys <= Visible(m, now).Keys
    ensures forall k :: k in Visible(m, later) ==> Visible(m, later)[k] == Visible(m, now)[k]
  {
  }

  /** strings.ToUpper(c) == a, for an upper-case ASCII letter a: c is a in either case. */
  lemma UpperCharIs(c: char, a: char)
    requires 'A' <= a <= 'Z'
    ensures UpperChar(c) == a <==> c == a || c as int == a as int + 32
  {
  }

  /** strings.ToUpper(u) is a given two-letter upper-case word exactly when u is that word in any mix of cases. */
  lemma UpperIsWord(u: string, a: char, b: char)
    requires 'A' <= a <= 'Z' && 'A' <= b <= 'Z'
    ensures ToUpper(u) == [a, b] <==>
      |u| == 2 && (u[0] == a || u[0] as int == a as int + 32) && (u[1] == b || u[1] as int == b as int + 32)
  {
    UpperCharIs(if |u| > 0 then u[0] else a, a);
    UpperCharIs(if |u| > 1 then u[1] else b, b);
    if |u| == 2 && UpperChar(u[0]) == a && UpperChar(u[1]) == b {
      assert ToUpper(u) == [a, b];
    }
  }

  /** The TTL unit is matched whatever its case: px, pX, Px and PX are milliseconds; ex, eX, Ex and EX are seconds. */
  lemma UnitsIgnoreCase(u: string)
    ensures UnitNanos(u) == Millisecond <==> |u| == 2 && u[0] in "pP" && u[1] in "xX"
    ensures UnitNanos(u) == Second <==> |u| == 2 && u[0] in "eE" && u[1] in "xX"
    ensures UnitNanos(u) == 1 <==> !(|u| == 2 && u[0] in "pPeE" && u[1] in "xX")
  {
    assert "PX" == ['P', 'X'] && "EX" == ['E', 'X'];
    UpperIsWord(u, 'P', 'X');
    UpperIsWord(u, 'E', 'X');
  }

  /** Writing, overwriting and reading back, as a client of the store sees it. */
  method OverwriteScenario()
  {
    var rm := new RedisMap();
    rm.SetValue("key", "value1");
    rm.SetValue("key", "value2");
    assert rm.entries["key"].expiry == None;
    var v, found := rm.GetValue("key", 0);
    assert found && v == "value2";
    v, found := rm.GetValue("nonexistent", 0);
    assert !found && v == "";
  }

  /** A key set with PX 50 is found at once and gone, deleted from the map, 100 ms later. */
  method ExpiryScenario(t: int)
  {
    var rm := new RedisMap();
    UnitsIgnoreCase("PX");
    UnitsIgnoreCase("px");
    rm.SetValueWithExpiry("expiring", "value", "PX", 50, t);
    var v, found := rm.GetValue("expiring", t);
    assert found && v == "value";
    v, found := rm.GetValue("expiring", t + 100 * Millisecond);
    assert !found && "expiring" !in rm.entries;

    rm.SetValueWithExpiry("notexpired", "value", "px", 500, t);
    v, found := rm.GetValue("notexpired", t + 100 * Millisecond);
    assert found && v == "value";
  }
}
