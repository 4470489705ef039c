/**
 * savePaletteToLocal: the list of saved palettes kept in browser local
 * storage under the key 'savedPalettes'.
 */
module SavedPalettes {
  import opened Wrappers

  type Palette = seq<string>

  const SavedKey := "savedPalettes"

  /**
   * The key-value store. Entries hold the decoded list of palettes; the JSON
   * text that the browser actually keeps is not modelled.
   */
  class LocalStorage {
    var items: map<string, seq<Palette>>

    constructor ()
      ensures items == map[]
    {
      items := map[];
    }

    /** getItem: None for an absent key (JavaScript's null). */
    function GetItem(key: string): (r: Option<seq<Palette>>)
      reads this
      ensures r.Some? <==> key in items
      ensures r.Some? ==> r.value == items[key]
    {
      if key in items then Some(items[key]) else None
    }

    /** setItem: replaces the entry under `key` and nothing else. */
    method SetItem(key: string, value: seq<Palette>)
      modifies this
      ensures items == old(items)[key := value]
    {
      items := items[key := value];
    }
  }

  /** The saved list as read back, absent meaning none saved (`|| []`). */
  function Saved(items: map<string, seq<Palette>>): (l: seq<Palette>)
    ensures SavedKey in items ==> l == items[SavedKey]
    ensures SavedKey !in items ==> l == []
  {
    if SavedKey in items then items[SavedKey] else []
  }

  /** The store after saving `palette`. */
  function SaveOnto(items: map<string, seq<Palette>>, palette: Palette): map<string, seq<Palette>> {
    items[SavedKey := Saved(items) + [palette]]
  }

  /** Models savePaletteToLocal(palette): read the list, push, write it back. */
  method SavePaletteToLocal(storage: LocalStorage, palette: Palette)
    modifies storage
    ensures storage.items == SaveOnto(old(storage.items), palette)
    ensures Saved(storage.items) == Saved(old(storage.items)) + [palette]
  {
    var stored := storage.GetItem(SavedKey);
    var savedPalettes := if stored.Some? then stored.value else [];
    savedPalettes := savedPalettes + [palette];
    storage.SetItem(SavedKey, savedPalettes);
  }

  /**
   * Saving appends: the list grows by one, the new palette is last, every
   * earlier palette stays where it was, and no other key changes.
   */
  lemma SaveAppends(items: map<string, seq<Palette>>, palette: Palette)
    ensures |Saved(SaveOnto(items, palette))| == |Saved(items)| + 1
    ensures Saved(SaveOnto(items, palette))[|Saved(items)|] == palette
    ensures forall i :: 0 <= i < |Saved(items)| ==> Saved(SaveOnto(items, palette))[i] == Saved(items)[i]
    ensures forall k :: k in items && k != SavedKey ==> k in SaveOnto(items, palette) && SaveOnto(items, palette)[k] == items[k]
    ensures SaveOnto(items, palette).Keys == items.Keys + {SavedKey}
  {
  }

  /** Saving each palette of `ps` in turn. */
  function SaveAll(items: map<string, seq<Palette>>, ps: seq<Palette>): map<string, seq<Palette>>
    decreases |ps|
  {
    if ps == [] then items else SaveAll(SaveOnto(items, ps[0]), ps[1..])
  }

  /** Saved palettes accumulate in the order they were saved. */
  lemma {:induction false} SaveAllAccumulates(items: map<string, seq<Palette>>, ps: seq<Palette>)
    ensures Saved(SaveAll(items, ps)) == Saved(items) + ps
    decreases |ps|
  {
    if ps != [] {
      SaveAllAccumulates(SaveOnto(items, ps[0]), ps[1..]);
      assert [ps[0]] + ps[1..] == ps;
    }
  }

  /** From an empty store, saving P1 then P2 leaves exactly [P1, P2]. */
  lemma SaveTwiceFromEmpty(p1: Palette, p2: Palette)
    ensures Saved(SaveOnto(SaveOnto(map[], p1), p2)) == [p1, p2]
  {
  }
}
