/** The answer store of the questionnaire: for each spouse key, a response map
    from answer key (a question text or a section's comment key) to the text
    typed into the matching field.  The form's change handler never edits a
    store in place; it builds a new store with one entry replaced. */
module AnswerStore {

  type Responses = map<string, string>
  type Store = map<string, Responses>

  const Spouse1: string := "spouse1"
  const Spouse2: string := "spouse2"

  /** The respondents, in the order the form and the exporter visit them. */
  const SpouseKeys: seq<string> := [Spouse1, Spouse2]

  /** A store the exporter can read: both spouses have a response map.  Reading
      a missing spouse's map would be a run-time error in the exporter. */
  predicate WellFormed(store: Store)
  {
    Spouse1 in store && Spouse2 in store
  }

  /** The store a session starts with: both spouses, no answers yet. */
  function InitialStore(): (s: Store)
    ensures WellFormed(s)
    ensures s.Keys == {Spouse1, Spouse2}
    ensures forall spouse :: spouse in s ==> s[spouse].Keys == {}
  {
    map[Spouse1 := map[], Spouse2 := map[]]
  }

  /** A spouse's response map as the change handler spreads it: a spouse with
      no map yet spreads as the empty map. */
  function ResponsesOf(store: Store, spouse: string): (r: Responses)
    ensures spouse in store ==> r == store[spouse]
    ensures spouse !in store ==> r.Keys == {}
  {
    if spouse in store then store[spouse] else map[]
  }

  /** The text shown for, and exported from, `key`: the stored text, or "" when
      the key was never written.  The source reads `r[key] || ""`; since every
      stored value is a string, the only falsy stored value is "" itself, so
      the result is exactly the stored text whenever there is one. */
  function AnswerOf(r: Responses, key: string): (a: string)
    ensures key in r ==> a == r[key]
    ensures key !in r ==> a == ""
  {
    if key in r && r[key] != "" then r[key] else ""
  }

  /** The change handler: a new store in which the answer of `spouse` under
      `key` is `value` and every other entry is as before. */
  function Update(store: Store, spouse: string, key: string, value: string): (s': Store)
    ensures s'.Keys == store.Keys + {spouse}
    ensures key in s'[spouse] && s'[spouse][key] == value
    ensures s'[spouse].Keys == ResponsesOf(store, spouse).Keys + {key}
    ensures forall k :: k in s'[spouse] && k != key ==> s'[spouse][k] == ResponsesOf(store, spouse)[k]
    ensures forall other :: other in store && other != spouse ==> s'[other] == store[other]
    ensures WellFormed(store) ==> WellFormed(s')
  {
    store[spouse := ResponsesOf(store, spouse)[key := value]]
  }

  /** Read after write: the written slot reads back the new value, every other
      (spouse, key) slot reads as before. */
  lemma ReadAfterUpdate(store: Store, spouse: string, key: string, value: string, spouse': string, key': string)
    requires spouse' in store || spouse' == spouse
    ensures var s' := Update(store, spouse, key, value);
      AnswerOf(s'[spouse'], key') ==
        if spouse' == spouse && key' == key then value
        else AnswerOf(ResponsesOf(store, spouse'), key')
  {
  }

  /** The last write to a slot wins: writing twice is writing once. */
  lemma UpdateLastWriteWins(store: Store, spouse: string, key: string, v1: string, v2: string)
    ensures Update(Update(store, spouse, key, v1), spouse, key, v2) == Update(store, spouse, key, v2)
  {
    var a := Update(Update(store, spouse, key, v1), spouse, key, v2);
    var b := Update(store, spouse, key, v2);
    assert a[spouse] == b[spouse];
  }

  /** Writes to different slots commute: the store does not depend on the
      order in which different fields were edited. */
  lemma UpdatesCommute(store: Store, s1: string, k1: string, v1: string, s2: string, k2: string, v2: string)
    requires s1 != s2 || k1 != k2
    ensures Update(Update(store, s1, k1, v1), s2, k2, v2) == Update(Update(store, s2, k2, v2), s1, k1, v1)
  {
    if s1 == s2 {
      SameSpouseUpdatesCommute(store, s1, k1, v1, k2, v2);
    } else {
      OtherSpouseUpdatesCommute(store, s1, k1, v1, s2, k2, v2);
    }
  }

  lemma SameSpouseUpdatesCommute(store: Store, spouse: string, k1: string, v1: string, k2: string, v2: string)
    requires k1 != k2
    ensures Update(Update(store, spouse, k1, v1), spouse, k2, v2) == Update(Update(store, spouse, k2, v2), spouse, k1, v1)
  {
    var r := ResponsesOf(store, spouse);
    UpdateTwice(store, spouse, k1, v1, k2, v2);
    UpdateTwice(store, spouse, k2, v2, k1, v1);
    WritesToDistinctKeysCommute(r, k1, v1, k2, v2);
  }

  lemma WritesToDistinctKeysCommute(r: Responses, k1: string, v1: string, k2: string, v2: string)
    requires k1 != k2
    ensures r[k1 := v1][k2 := v2] == r[k2 := v2][k1 := v1]
  {
  }

  /** Two writes for one spouse put both entries into that spouse's map. */
  lemma UpdateTwice(store: Store, spouse: string, k1: string, v1: string, k2: string, v2: string)
    ensures Update(Update(store, spouse, k1, v1), spouse, k2, v2)
         == store[spouse := ResponsesOf(store, spouse)[k1 := v1][k2 := v2]]
  {
    var m := Update(store, spouse, k1, v1);
    assert ResponsesOf(m, spouse) == ResponsesOf(store, spouse)[k1 := v1];
    assert m[spouse := ResponsesOf(m, spouse)[k2 := v2]] == store[spouse := ResponsesOf(store, spouse)[k1 := v1][k2 := v2]];
  }

  lemma OtherSpouseUpdatesCommute(store: Store, s1: string, k1: string, v1: string, s2: string, k2: string, v2: string)
    requires s1 != s2
    ensures Update(Update(store, s1, k1, v1), s2, k2, v2) == Update(Update(store, s2, k2, v2), s1, k1, v1)
  {
    var r1, r2 := ResponsesOf(store, s1), ResponsesOf(store, s2);
    assert ResponsesOf(Update(store, s1, k1, v1), s2) == r2;
    assert ResponsesOf(Update(store, s2, k2, v2), s1) == r1;
    assert store[s1 := r1[k1 := v1]][s2 := r2[k2 := v2]] == store[s2 := r2[k2 := v2]][s1 := r1[k1 := v1]];
  }
}
