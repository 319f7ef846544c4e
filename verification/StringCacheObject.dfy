/** The string table as the object its users share. */
module StringCacheObject {
  import opened Basics
  import SC = StringCache

  class StringCache {
    var idToString: seq<Id>
    var stringToId: map<Id, nat>
    var wanted: set<Id>

    constructor ()
      ensures Value() == SC.EMPTY && wanted == {} && SC.Inverse(Value())
    {
      idToString, stringToId, wanted := [], map[], {};
    }

    ghost function Value(): SC.Cache
      reads this
    {
      SC.Cache(idToString, stringToId)
    }

    method Add(s: Id) returns (id: nat)
      requires SC.Inverse(Value())
      modifies this`idToString, this`stringToId
      ensures Value() == SC.Add(old(Value()), s)
      ensures |old(idToString)| < SC.ID_SPACE ==> SC.Inverse(Value()) && id < |idToString| && idToString[id] == s
    {
      SC.AddKeepsInverseIff(Value(), s);
      if s in stringToId {
        return stringToId[s];
      }
      var position := |idToString|;
      stringToId := stringToId[s := position % SC.ID_SPACE];
      idToString := idToString + [s];
      return position % SC.ID_SPACE;
    }

    method AddWanted(s: Id)
      modifies this`wanted
      ensures wanted == old(wanted) + {s}
    {
      wanted := wanted + {s};
    }

    /** Adds every wanted string, in whatever order the set yields them. */
    method ProcessDirty() returns (dirty: bool)
      requires SC.Inverse(Value()) && |idToString| + |wanted| < SC.ID_SPACE
      modifies this
      ensures dirty == (old(wanted) != {}) && wanted == {}
      ensures SC.Inverse(Value()) && old(idToString) <= idToString
      ensures forall s :: s in idToString <==> s in old(idToString) || s in old(wanted)
    {
      if wanted == {} {
        return false;
      }
      var left := wanted;
      while left != {}
        invariant left <= wanted == old(wanted)
        invariant SC.Inverse(Value()) && old(idToString) <= idToString
        invariant |idToString| + |left| < SC.ID_SPACE
        invariant forall s :: s in idToString <==> s in old(idToString) || s in wanted - left
        decreases |left|
      {
        var s: Id :| s in left;
        var id := Add(s);
        left := left - {s};
      }
      wanted := {};
      return true;
    }

    method Serialize(start: nat) returns (update: SC.Update, next: nat)
      ensures (update, next) == SC.Serialize(Value(), start)
    {
      update, next := SC.Update(start, []), start;
      if start < |idToString| {
        update := SC.Update(start, idToString[start..]);
        next := |idToString|;
      }
    }

    /** Adds the values of an update; `contiguous` and `exact` are its two checks. */
    method Deserialize(u: SC.Update) returns (contiguous: bool, exact: bool)
      requires SC.Inverse(Value()) && |idToString| + |u.values| <= SC.ID_SPACE
      modifies this`idToString, this`stringToId
      ensures Value() == SC.AddAll(old(Value()), u.values) && SC.Inverse(Value())
      ensures contiguous <==> u.start == |old(idToString)|
      ensures exact <==> SC.Distinct(old(idToString) + u.values)
    {
      hide SC.Distinct;
      contiguous := u.start == |idToString|;
      exact := true;
      ghost var before := Value();
      SC.AddAllKeeps(before, u.values);
      assert before.strings + u.values[..0] == before.strings;
      for n := 0 to |u.values|
        invariant Value() == SC.AddAll(before, u.values[..n])
        invariant exact <==> SC.Distinct(before.strings + u.values[..n])
      {
        assert u.values[..n + 1][..n] == u.values[..n] && u.values[..n + 1][n] == u.values[n];
        SC.AddAllKeeps(before, u.values[..n]);
        SC.DistinctSnoc(before.strings + u.values[..n], u.values[n]);
        assert before.strings + u.values[..n + 1] == (before.strings + u.values[..n]) + [u.values[n]];
        exact := exact && u.values[n] !in stringToId;
        var id := Add(u.values[n]);
      }
      assert u.values[..|u.values|] == u.values;
    }
  }
}
