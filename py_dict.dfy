/** A Python `dict[str, str]` as the registries receive it: its entries and
    the order in which its keys were inserted. */
module PyDict {

  datatype RawDict = RawDict(keys: seq<string>, entries: map<string, string>)

  /** The keys are distinct and are exactly the keys of the entries. */
  ghost predicate WellFormed(d: RawDict) {
    (forall i, j :: 0 <= i < j < |d.keys| ==> d.keys[i] != d.keys[j]) &&
    (forall k :: k in d.entries <==> k in d.keys)
  }

  type Dict = d: RawDict | WellFormed(d) witness RawDict([], map[])
}
