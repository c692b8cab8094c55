/**
 * The snapshot builder both engines share: a deep copy of the application state whose
 * `history` and `roundWinners` lists are cut to their most recent entries.
 * The deep copy `JSON.parse(JSON.stringify(source))` is the identity on JSON values.
 */
module Snapshot {
  import opened Wrappers
  import opened Json

  /** One call of the application's `getState` callback: it threw, or it returned a value. */
  datatype StateRead = Threw | Got(value: Json)

  /** `if (Array.isArray(clone[key]) && clone[key].length > cap) clone[key] = clone[key].slice(-cap)`. */
  function KeepLastOf(j: Json, key: string, cap: nat): (r: Json)
    ensures Get(j, key).Some? && Get(j, key).value.JArr? ==>
      Get(r, key) == Some(JArr(KeepLast(Get(j, key).value.items, cap)))
    ensures !(Get(j, key).Some? && Get(j, key).value.JArr?) ==> r == j
    ensures forall other :: other != key ==> Get(r, other) == Get(j, other)
    ensures r.JObj? <==> j.JObj?
    ensures r.JObj? ==> Keys(r.fields) == Keys(j.fields)
  {
    match Get(j, key)
    case Some(JArr(items)) =>
      if |items| > cap then
        LookupHasKey(j.fields, key);
        SetKeys(j, key, JArr(items[|items| - cap..]));
        Set(j, key, JArr(items[|items| - cap..]))
      else j
    case _ => j
  }

  lemma LookupHasKey(fields: seq<(string, Json)>, key: string)
    requires Lookup(fields, key).Some?
    ensures key in Keys(fields)
  {
    var k :| 0 <= k < |fields| && fields[k] == (key, Lookup(fields, key).value);
    assert Keys(fields)[k] == key;
  }

  /**
   * `_cloneState` (caps 200 and 200) and the clone inside `_buildPayload` (caps 120 and 120):
   * the state with each of the two lists cut to its last entries, everything else as it was.
   */
  function CloneState(source: Json, historyCap: nat, roundCap: nat): (r: Json)
    ensures IsObjectType(r) <==> IsObjectType(source)
    ensures !source.JObj? ==> r == source
    ensures forall other :: other != "history" && other != "roundWinners" ==> Get(r, other) == Get(source, other)
    ensures r.JObj? ==> Keys(r.fields) == Keys(source.fields)
    ensures Get(source, "history").Some? && Get(source, "history").value.JArr? ==>
      Get(r, "history") == Some(JArr(KeepLast(Get(source, "history").value.items, historyCap)))
    ensures !(Get(source, "history").Some? && Get(source, "history").value.JArr?) ==>
      Get(r, "history") == Get(source, "history")
    ensures Get(source, "roundWinners").Some? && Get(source, "roundWinners").value.JArr? ==>
      Get(r, "roundWinners") == Some(JArr(KeepLast(Get(source, "roundWinners").value.items, roundCap)))
    ensures !(Get(source, "roundWinners").Some? && Get(source, "roundWinners").value.JArr?) ==>
      Get(r, "roundWinners") == Get(source, "roundWinners")
  {
    var h := KeepLastOf(source, "history", historyCap);
    assert |"history"| != |"roundWinners"|;
    KeepLastOf(h, "roundWinners", roundCap)
  }

  /** Cutting a list that is already short enough leaves the value as it is. */
  lemma KeepLastOfShort(j: Json, key: string, cap: nat)
    requires Get(j, key).Some? && Get(j, key).value.JArr? ==> |Get(j, key).value.items| <= cap
    ensures KeepLastOf(j, key, cap) == j
  {
  }

  /**
   * Cloning a clone changes nothing: a snapshot restored into the application and backed up
   * again carries the same data as the snapshot it came from.
   */
  lemma CloneStateIdempotent(source: Json, historyCap: nat, roundCap: nat)
    ensures CloneState(CloneState(source, historyCap, roundCap), historyCap, roundCap) ==
            CloneState(source, historyCap, roundCap)
  {
    var c := CloneState(source, historyCap, roundCap);
    KeepLastOfShort(c, "history", historyCap);
    KeepLastOfShort(c, "roundWinners", roundCap);
  }
}
