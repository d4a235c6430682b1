/** One shard of the key table as the program keeps it: a map and a recency list updated in place
    under the shard's lock. */
module KeyShard {
  import opened Options
  import opened Histogram
  import B = Boundaries
  import opened KeyTable

  class LockedShard {
    var keys: map<Key, Entry>
    var recency: seq<Key>
    var evictions: nat

    ghost function Value(): Shard
      reads this
    {
      Shard(keys, recency, evictions)
    }

    constructor ()
      ensures Value() == Shard(map[], [], 0)
    {
      keys, recency, evictions := map[], [], 0;
    }

    /** Drop the least recently active key. */
    method EvictOldest()
      requires recency != []
      modifies this
      ensures Value() == Evict(old(Value()))
    {
      var last := |recency| - 1;
      keys := keys - {recency[last]};
      recency := recency[..last];
      evictions := evictions + 1;
    }

    method PushFront(key: Key, entry: Entry)
      modifies this
      ensures Value() == Insert(old(Value()), key, entry)
    {
      keys := keys[key := entry];
      recency := [key] + recency;
    }

    /** Find or admit a key; false, and nothing changes, when every tracked key is live. */
    method TouchLocked(c: Config, key: Key, at: int) returns (found: bool)
      requires c.Valid() && Sound(c, Value())
      modifies this
      ensures found == Touch(c, old(Value()), key, at).Some?
      ensures Value() == if found then Touch(c, old(Value()), key, at).value else old(Value())
    {
      if key !in keys {
        if |keys| >= c.cap {
          ListedSize(keys.Keys, recency);
          OldestListed(Value());
          var oldest := keys[recency[|recency| - 1]];
          var cold := oldest.hist.observations < c.minSamples;
          var limit := if cold then c.coldGrace else c.idleEviction;
          if limit <= 0 || Gap(at, oldest.lastActivity) < limit {
            return false;
          }
          EvictOldest();
        }
        PushFront(key, NewEntry(c, at));
        return true;
      }
      Refresh(c, key, at);
      found := true;
    }

    /** Stale evidence is discarded; an idle gap decays what is left. */
    method Refresh(c: Config, key: Key, at: int)
      requires c.Valid() && key in keys
      modifies `keys
      ensures keys == old(keys)[key := Updated(c, old(keys)[key], at)]
    {
      var entry := keys[key];
      if Stale(c, entry, at) {
        entry := entry.(hist := Fresh(c.layout), tier := -1, lastDecay := at);
      } else if c.halfLife > 0 {
        var gap := Gap(at, entry.lastDecay);
        if gap >= NANOS_PER_SECOND {
          entry := entry.(hist := Histogram.Shrink(entry.hist, c.halving(gap)), lastDecay := at);
        }
      }
      keys := keys[key := entry];
    }

    /** New evidence makes a key the most recently active. */
    method Activate(key: Key, h: Hist, at: int)
      requires key in keys
      modifies this
      ensures Value() == Activated(old(Value()), key, h, at)
    {
      keys := keys[key := keys[key].(hist := h, lastActivity := at)];
      recency := MovedToFront(recency, key);
    }

    method Learn(c: Config, key: Key, value: real, at: int) returns (kept: bool)
      requires c.Valid() && Sound(c, Value()) && 0.0 <= value
      modifies this
      ensures (Value(), kept) == Record(c, old(Value()), key, value, at)
    {
      TouchSound(c, Value(), key, at);
      kept := TouchLocked(c, key, at);
      if kept {
        Activate(key, Add(c.layout, keys[key].hist, c.decay, value), at);
      }
    }

    method LearnCensored(c: Config, key: Key, at: int) returns (kept: bool)
      requires c.Valid() && Sound(c, Value())
      modifies this
      ensures (Value(), kept) == KeyTable.Censor(c, old(Value()), key, at)
    {
      TouchSound(c, Value(), key, at);
      kept := TouchLocked(c, key, at);
      if kept {
        Activate(key, AddCensored(keys[key].hist, c.decay), at);
      }
    }

    /** A fresh key that is asked about stays active; a stale one is not revived. */
    method Ask(c: Config, snapshot: Option<B.Snapshot>, key: Key, at: int) returns (answer: Prediction)
      requires c.Valid() && Sound(c, Value())
      requires snapshot.Some? ==> |snapshot.value.boundaries| == c.levels - 1
      modifies this
      ensures (Value(), answer) == Predict(c, old(Value()), snapshot, key, at)
    {
      if !UsableKey(key) {
        return Fallback(c, InvalidKey, 0);
      }
      if snapshot.None? {
        return Fallback(c, Unready, 0);
      }
      if key !in keys {
        return Fallback(c, ColdKey, 0);
      }
      if Stale(c, keys[key], at) {
        return Fallback(c, StaleKey, keys[key].hist.observations);
      }
      var (entry, p) := Evaluate(c, keys[key].(lastActivity := at), snapshot.value.boundaries);
      keys := keys[key := entry];
      recency := MovedToFront(recency, key);
      answer := p;
    }

    method Clear()
      modifies this
      ensures Value() == old(Value()).(keys := map[], recency := [])
    {
      keys, recency := map[], [];
    }
  }
}
