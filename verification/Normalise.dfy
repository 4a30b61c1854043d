// The trajectory normaliser, applied in the child, in the decoder and in the worker.
module Normalise {
  import opened Prelude

  // Dictionary keys: str(key) of a string is the string, of any other key its rendering.
  datatype Key = Text(text: string) | Other(rendering: string)

  // Python values as the normalisers tell them apart. A Mapping is a mapping that is not a dict;
  // bytes and everything else is opaque. Both carry what str() makes of them.
  datatype Value =
    | Nothing
    | Truth(b: bool)
    | Whole(n: int)
    | Real(r: real)
    | Str(s: string)
    | Dict(entries: seq<Entry>)
    | Mapping(pairs: seq<Entry>, shown: string)
    | Sequence(items: seq<Value>)
    | Opaque(shown: string)

  datatype Entry = Entry(key: Key, value: Value)

  function KeyText(k: Key): string {
    match k
    case Text(t) => t
    case Other(r) => r
  }

  // Storing under a key already present overwrites in place, as a dict comprehension does.
  function Store(entries: seq<Entry>, e: Entry): seq<Entry> {
    if entries == [] then [e]
    else if entries[0].key == e.key then [e] + entries[1..]
    else [entries[0]] + Store(entries[1..], e)
  }

  // The worker's normaliser is wide: it also opens mappings that are not dicts. The one of the model
  // runtime renders them.
  function Normal(v: Value, wide: bool): Value
    decreases v, 1
  {
    match v
    case Dict(entries) => Dict(NormalEntries(entries, wide))
    case Mapping(pairs, shown) => if wide then Dict(NormalEntries(pairs, wide)) else Str(shown)
    case Sequence(items) => Sequence(NormalItems(items, wide))
    case Opaque(shown) => Str(shown)
    case _ => v
  }

  function NormalItems(items: seq<Value>, wide: bool): seq<Value>
    decreases items, 0
  {
    if items == [] then [] else NormalItems(items[..|items| - 1], wide) + [Normal(items[|items| - 1], wide)]
  }

  function NormalEntry(e: Entry, wide: bool): Entry
    decreases e, 1
  {
    Entry(Text(KeyText(e.key)), Normal(e.value, wide))
  }

  function NormalEntries(entries: seq<Entry>, wide: bool): seq<Entry>
    decreases entries, 0
  {
    if entries == [] then []
    else Store(NormalEntries(entries[..|entries| - 1], wide), NormalEntry(entries[|entries| - 1], wide))
  }

  // JSON: only plain containers, text keys, no key twice.
  ghost predicate Plain(v: Value)
    decreases v, 1
  {
    match v
    case Dict(entries) => PlainEntries(entries)
    case Sequence(items) => PlainItems(items)
    case Mapping(_, _) => false
    case Opaque(_) => false
    case _ => true
  }

  ghost predicate PlainItems(items: seq<Value>)
    decreases items, 0
  {
    items == [] || (PlainItems(items[..|items| - 1]) && Plain(items[|items| - 1]))
  }

  ghost predicate PlainEntry(e: Entry)
    decreases e, 1
  {
    e.key.Text? && Plain(e.value)
  }

  ghost predicate PlainEntries(entries: seq<Entry>)
    decreases entries, 0
  {
    entries == []
    || (PlainEntries(entries[..|entries| - 1]) && PlainEntry(entries[|entries| - 1])
        && Missing(entries[..|entries| - 1], entries[|entries| - 1].key))
  }

  ghost predicate Missing(entries: seq<Entry>, key: Key) {
    forall i :: 0 <= i < |entries| ==> entries[i].key != key
  }

  lemma {:induction false} StoreMissing(entries: seq<Entry>, e: Entry)
    requires Missing(entries, e.key)
    ensures Store(entries, e) == entries + [e]
  {
    if entries != [] {
      assert entries[0].key != e.key;
      assert Missing(entries[1..], e.key);
      StoreMissing(entries[1..], e);
      assert [entries[0]] + (entries[1..] + [e]) == entries + [e];
    }
  }

  lemma {:induction false} StoreLast(entries: seq<Entry>, last: Entry, e: Entry)
    ensures Store(entries + [last], e) ==
            if !Missing(entries, e.key) then Store(entries, e) + [last]
            else if last.key == e.key then entries + [e]
            else entries + [last, e]
  {
    var all := entries + [last];
    if entries == [] {
      assert all[1..] == [];
    } else {
      assert all[0] == entries[0] && all[1..] == entries[1..] + [last];
      StoreLast(entries[1..], last, e);
      assert Missing(entries, e.key) <==> entries[0].key != e.key && Missing(entries[1..], e.key);
    }
  }

  lemma {:induction false} StoreKeys(entries: seq<Entry>, e: Entry, key: Key)
    ensures Missing(Store(entries, e), key) <==> Missing(entries, key) && key != e.key
    ensures !Missing(entries, e.key) ==> |Store(entries, e)| == |entries|
  {
    var done := Store(entries, e);
    if entries != [] {
      if entries[0].key == e.key {
        assert done[0] == e && done[1..] == entries[1..];
        assert Missing(done, key) <==> e.key != key && Missing(done[1..], key);
        assert Missing(entries, key) <==> entries[0].key != key && Missing(entries[1..], key);
      } else {
        StoreKeys(entries[1..], e, key);
        assert done[0] == entries[0] && done[1..] == Store(entries[1..], e);
        assert Missing(done, key) <==> entries[0].key != key && Missing(done[1..], key);
        assert Missing(entries, key) <==> entries[0].key != key && Missing(entries[1..], key);
        assert Missing(entries, e.key) <==> Missing(entries[1..], e.key);
      }
    } else {
      assert done == [e];
      assert Missing(done, key) <==> done[0].key != key;
    }
  }

  lemma {:induction false} StorePlain(entries: seq<Entry>, e: Entry)
    requires PlainEntries(entries) && PlainEntry(e)
    ensures PlainEntries(Store(entries, e))
  {
    if Missing(entries, e.key) {
      StoreMissing(entries, e);
      assert (entries + [e])[..|entries|] == entries;
    } else {
      var front, last := entries[..|entries| - 1], entries[|entries| - 1];
      assert entries == front + [last];
      StoreLast(front, last, e);
      if Missing(front, e.key) {
        assert last.key == e.key;
        assert (front + [e])[..|front|] == front;
      } else {
        StorePlain(front, e);
        StoreKeys(front, e, last.key);
        assert (Store(front, e) + [last])[..|Store(front, e)|] == Store(front, e);
      }
    }
  }

  // Whatever the value, either normaliser yields JSON.
  lemma {:induction false} NormalIsPlain(v: Value, wide: bool)
    ensures Plain(Normal(v, wide))
    decreases v, 1
  {
    match v
    case Dict(entries) => NormalEntriesPlain(entries, wide);
    case Mapping(pairs, _) =>
      if wide {
        NormalEntriesPlain(pairs, wide);
      }
    case Sequence(items) => NormalItemsPlain(items, wide);
    case _ =>
  }

  lemma {:induction false} NormalItemsPlain(items: seq<Value>, wide: bool)
    ensures PlainItems(NormalItems(items, wide))
    decreases items, 0
  {
    if items != [] {
      NormalItemsPlain(items[..|items| - 1], wide);
      NormalIsPlain(items[|items| - 1], wide);
      var done := NormalItems(items, wide);
      assert done[..|done| - 1] == NormalItems(items[..|items| - 1], wide);
    }
  }

  lemma {:induction false} NormalEntryPlain(e: Entry, wide: bool)
    ensures PlainEntry(NormalEntry(e, wide))
    decreases e, 1
  {
    NormalIsPlain(e.value, wide);
  }

  lemma {:induction false} NormalEntriesPlain(entries: seq<Entry>, wide: bool)
    ensures PlainEntries(NormalEntries(entries, wide))
    decreases entries, 0
  {
    if entries != [] {
      NormalEntriesPlain(entries[..|entries| - 1], wide);
      NormalEntryPlain(entries[|entries| - 1], wide);
      StorePlain(NormalEntries(entries[..|entries| - 1], wide), NormalEntry(entries[|entries| - 1], wide));
    }
  }

  // Both normalisers leave JSON as it is.
  lemma {:induction false} PlainIsFixed(v: Value, wide: bool)
    requires Plain(v)
    ensures Normal(v, wide) == v
    decreases v, 1
  {
    match v
    case Dict(entries) => PlainEntriesFixed(entries, wide);
    case Sequence(items) => PlainItemsFixed(items, wide);
    case _ =>
  }

  lemma {:induction false} PlainItemsFixed(items: seq<Value>, wide: bool)
    requires PlainItems(items)
    ensures NormalItems(items, wide) == items
    decreases items, 0
  {
    if items != [] {
      PlainItemsFixed(items[..|items| - 1], wide);
      PlainIsFixed(items[|items| - 1], wide);
    }
  }

  lemma {:induction false} PlainEntryFixed(e: Entry, wide: bool)
    requires PlainEntry(e)
    ensures NormalEntry(e, wide) == e
    decreases e, 1
  {
    PlainIsFixed(e.value, wide);
  }

  lemma {:induction false} PlainEntriesFixed(entries: seq<Entry>, wide: bool)
    requires PlainEntries(entries)
    ensures NormalEntries(entries, wide) == entries
    decreases entries, 0
  {
    if entries != [] {
      var front, last := entries[..|entries| - 1], entries[|entries| - 1];
      PlainEntriesFixed(front, wide);
      PlainEntryFixed(last, wide);
      StoreMissing(front, last);
    }
  }

  lemma {:induction false} NormalItemsAre(items: seq<Value>, wide: bool)
    ensures |NormalItems(items, wide)| == |items|
    ensures forall i :: 0 <= i < |items| ==> NormalItems(items, wide)[i] == Normal(items[i], wide)
    decreases items
  {
    if items != [] {
      NormalItemsAre(items[..|items| - 1], wide);
    }
  }

  // Lists keep their length and order, only the worker's normaliser opens mappings that are not dicts, and
  // what neither knows is rendered.
  lemma NormalByKind(items: seq<Value>, pairs: seq<Entry>, shown: string, wide: bool)
    ensures var done := Normal(Sequence(items), wide);
            && done.Sequence? && |done.items| == |items|
            && forall i :: 0 <= i < |items| ==> done.items[i] == Normal(items[i], wide)
    ensures Normal(Dict(pairs), wide).Dict?
    ensures Normal(Mapping(pairs, shown), true) == Normal(Dict(pairs), true)
    ensures Normal(Mapping(pairs, shown), false) == Normal(Opaque(shown), wide) == Str(shown)
  {
    NormalItemsAre(items, wide);
  }

  // What the worker persists: nothing unless the run asked for a trajectory.
  function Persisted(trajectory: Value, includeTrajectory: bool): Value {
    var child := Normal(trajectory, false);
    var decoded := Normal(child, false);
    if includeTrajectory then Normal(decoded, true) else Nothing
  }

  // Normalising in the child, again in the decoder and once more in the worker, whose normaliser is
  // a different one, is the same as normalising once.
  lemma NormalisingOnceIsEnough(v: Value, wide: bool, again: bool)
    ensures Normal(Normal(v, wide), again) == Normal(v, wide)
    ensures Persisted(v, true) == Normal(v, false) && Plain(Persisted(v, true)) && Persisted(v, false) == Nothing
  {
    NormalIsPlain(v, wide);
    PlainIsFixed(Normal(v, wide), again);
    NormalIsPlain(v, false);
    PlainIsFixed(Normal(v, false), false);
    PlainIsFixed(Normal(v, false), true);
  }

  // The last entry whose key reads t, the one a collision keeps.
  function LastUnder(entries: seq<Entry>, t: string): Option<Value> {
    if entries == [] then None
    else if entries[|entries| - 1].key in {Text(t), Other(t)} then Some(entries[|entries| - 1].value)
    else LastUnder(entries[..|entries| - 1], t)
  }

  function Find(entries: seq<Entry>, key: Key): Option<Value> {
    if entries == [] then None
    else if entries[0].key == key then Some(entries[0].value)
    else Find(entries[1..], key)
  }

  lemma {:induction false} FindStored(entries: seq<Entry>, e: Entry, key: Key)
    ensures Find(Store(entries, e), key) == if key == e.key then Some(e.value) else Find(entries, key)
  {
    if entries != [] {
      var done := Store(entries, e);
      if entries[0].key == e.key {
        assert done[0] == e && done[1..] == entries[1..];
      } else {
        FindStored(entries[1..], e, key);
        assert done[0] == entries[0] && done[1..] == Store(entries[1..], e);
      }
    }
  }

  // When several keys read the same, the normalised object holds the last one's value, and it holds
  // nothing else under any key.
  lemma {:induction false} CollisionsKeepTheLast(entries: seq<Entry>, wide: bool, t: string)
    ensures Find(NormalEntries(entries, wide), Text(t)) ==
            match LastUnder(entries, t) case None => None case Some(v) => Some(Normal(v, wide))
  {
    if entries != [] {
      var front, last := entries[..|entries| - 1], entries[|entries| - 1];
      CollisionsKeepTheLast(front, wide, t);
      FindStored(NormalEntries(front, wide), NormalEntry(last, wide), Text(t));
    }
  }
}
