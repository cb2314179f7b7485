/** Lists of tagged fields in which the last one with a tag counts. */
module Tags {
  /** The value of the last field with the tag, empty if there is none. */
  ghost predicate LastTagged(fields: seq<string>, tag: string, v: string) {
    || (v == "" && forall i | 0 <= i < |fields| :: !(tag <= fields[i]))
    || exists i :: LastAt(fields, tag, v, i)
  }

  predicate LastAt(fields: seq<string>, tag: string, v: string, i: int) {
    0 <= i < |fields| && fields[i] == tag + v && forall j | i < j < |fields| :: !(tag <= fields[j])
  }

  lemma LastNext(fields: seq<string>, tag: string, v: string, field: string)
    requires LastTagged(fields, tag, v)
    ensures LastTagged(fields + [field], tag, if tag <= field then field[|tag|..] else v)
  {
    var all := fields + [field];
    if tag <= field {
      assert field == tag + field[|tag|..];
      assert LastAt(all, tag, field[|tag|..], |fields|);
    } else if i :| LastAt(fields, tag, v, i) {
      assert LastAt(all, tag, v, i);
    }
  }
}
