/** JSON merge patch (section 2 of RFC 7396) on the string maps of object metadata. */
module MergePatch {
  import opened Wrappers

  type StringMap = map<string, string>

  /** None is the null that deletes the key. */
  type Patch = map<string, Option<string>>

  function Apply(m: StringMap, p: Patch): (r: StringMap) {
    map k | k in m.Keys + p.Keys && (if k in p then p[k].Some? else true) :: if k in p then p[k].value else m[k]
  }

  /** `set` plus a deletion of every key in `removeKeys`; a key in both is deleted. */
  function KeyMergePatch(setValues: StringMap, removeKeys: seq<string>): Patch {
    (map k | k in setValues :: Some(setValues[k])) + (map k | k in removeKeys :: None)
  }

  /** The dry-run namespaces' merge: one key of the patch after the other, in any order. */
  method Merge(current: StringMap, patch: Patch) returns (merged: StringMap)
    ensures merged == Apply(current, patch)
  {
    merged := current;
    var todo := patch.Keys;
    while todo != {}
      invariant todo <= patch.Keys
      invariant merged == Apply(current, patch - todo)
    {
      var key :| key in todo;
      if patch[key] == None {
        merged := merged - {key};
      } else {
        merged := merged[key := patch[key].value];
      }
      todo := todo - {key};
    }
    assert patch - {} == patch;
  }

  /** The node patch's inline loop: skipped when there is nothing to change. */
  method MergeField(field: StringMap, patch: Patch) returns (current: StringMap)
    ensures current == Apply(field, patch)
  {
    if patch == map[] {
      assert Apply(field, patch) == field;
      return field;
    }
    current := field;
    var todo := patch.Keys;
    while todo != {}
      invariant todo <= patch.Keys
      invariant current == Apply(field, patch - todo)
    {
      var key :| key in todo;
      current := if patch[key].Some? then current[key := patch[key].value] else current - {key};
      todo := todo - {key};
    }
    assert patch - {} == patch;
  }

  /** What a patch does to one key, whatever the map holds. */
  lemma ApplyAt(m: StringMap, p: Patch, k: string)
    ensures k in p && p[k].Some? ==> k in Apply(m, p) && Apply(m, p)[k] == p[k].value
    ensures k in p && p[k] == None ==> k !in Apply(m, p)
    ensures k !in p ==> (k in Apply(m, p) <==> k in m) && (k in m ==> Apply(m, p)[k] == m[k])
  {
  }

  /** Applying p and then q is applying p overridden by q. */
  lemma ApplyCompose(m: StringMap, p: Patch, q: Patch)
    ensures Apply(Apply(m, p), q) == Apply(m, p + q)
  {
    var a, b := Apply(Apply(m, p), q), Apply(m, p + q);
    assert a.Keys == b.Keys;
  }

  lemma ApplyIdempotent(m: StringMap, p: Patch)
    ensures Apply(Apply(m, p), p) == Apply(m, p)
  {
    ApplyCompose(m, p, p);
    assert p + p == p;
  }

  lemma DisjointPatchesCommute(m: StringMap, p: Patch, q: Patch)
    requires p.Keys !! q.Keys
    ensures Apply(Apply(m, p), q) == Apply(Apply(m, q), p)
  {
    ApplyCompose(m, p, q);
    ApplyCompose(m, q, p);
    assert p + q == q + p;
  }

  /** Two patches commute exactly when they agree on the keys they share. */
  lemma PatchesCommuteIffTheyAgree(p: Patch, q: Patch)
    ensures (forall m: StringMap :: Apply(Apply(m, p), q) == Apply(Apply(m, q), p))
        <==> (forall k :: k in p && k in q ==> p[k] == q[k])
  {
    if forall k :: k in p && k in q ==> p[k] == q[k] {
      assert p + q == q + p;
      forall m: StringMap
        ensures Apply(Apply(m, p), q) == Apply(Apply(m, q), p)
      {
        ApplyCompose(m, p, q);
        ApplyCompose(m, q, p);
      }
    } else {
      var k :| k in p && k in q && p[k] != q[k];
      var none: StringMap := map[];
      ApplyAt(Apply(none, p), q, k);
      ApplyAt(Apply(none, q), p, k);
      assert Apply(Apply(none, p), q) != Apply(Apply(none, q), p);
    }
  }

  /** So they do not always: setting a key and deleting it, either way round. */
  lemma SetAndDeleteDoNotCommute()
    ensures var none: StringMap, p: Patch, q: Patch := map[], map["a" := Some("1")], map["a" := None];
            Apply(Apply(none, p), q) != Apply(Apply(none, q), p)
  {
    var none: StringMap, p: Patch, q: Patch := map[], map["a" := Some("1")], map["a" := None];
    ApplyAt(Apply(none, p), q, "a");
    ApplyAt(Apply(none, q), p, "a");
  }

  /** Removal wins; a set key ends with its value; every other key is left alone. */
  lemma KeyMergePatchOutcome(m: StringMap, setValues: StringMap, removeKeys: seq<string>, k: string)
    ensures var r := Apply(m, KeyMergePatch(setValues, removeKeys));
            && (k in removeKeys ==> k !in r)
            && (k !in removeKeys && k in setValues ==> k in r && r[k] == setValues[k])
            && (k !in removeKeys && k !in setValues ==> (k in r <==> k in m) && (k in m ==> r[k] == m[k]))
  {
    ApplyAt(m, KeyMergePatch(setValues, removeKeys), k);
  }
}
