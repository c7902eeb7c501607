/**
 * The grouping of forecasts by station in the `/api/weather` handler
 * (server.js:183-190): each TAF line is pushed onto the list of its key, the
 * first four characters, in an object that gets a new key the first time a key
 * is seen. The keys are then visited in the order they were added
 * (server.js:193).
 */
module Tafs {
  import opened Text
  import opened Seqs

  /** `taf.substring(0, 4)`: the station, or the whole line when it is shorter. */
  function TafKey(taf: string): (key: string)
    ensures |key| == if |taf| < 4 then |taf| else 4
    ensures key == taf[..|key|]
  {
    Substring(taf, 0, 4)
  }

  /** The test "has key `key`", as a value `filter` can use. */
  function HasKey(key: string): string -> bool {
    taf => TafKey(taf) == key
  }

  /** The keys of `tafsByAirport` in the order they were first added. */
  function KeysOf(tafs: seq<string>): seq<string> {
    if tafs == [] then []
    else
      var keys := KeysOf(tafs[..|tafs| - 1]);
      var key := TafKey(tafs[|tafs| - 1]);
      if key in keys then keys else keys + [key]
  }

  /** `tafsByAirport[key]`: the lines with that key, in feed order. */
  function Members(tafs: seq<string>, key: string): seq<string> {
    Filter(tafs, HasKey(key))
  }

  /** The keys are distinct. */
  lemma {:induction false} KeysDistinct(tafs: seq<string>)
    ensures forall i, j :: 0 <= i < j < |KeysOf(tafs)| ==> KeysOf(tafs)[i] != KeysOf(tafs)[j]
  {
    if tafs != [] {
      KeysDistinct(tafs[..|tafs| - 1]);
    }
  }

  /** A string is a key exactly when it is the key of some line. */
  lemma {:induction false} KeysComplete(tafs: seq<string>)
    ensures forall key :: key in KeysOf(tafs) <==> exists i :: 0 <= i < |tafs| && TafKey(tafs[i]) == key
  {
    if tafs != [] {
      var front := tafs[..|tafs| - 1];
      KeysComplete(front);
      forall key ensures key in KeysOf(tafs) <==> exists i :: 0 <= i < |tafs| && TafKey(tafs[i]) == key {
        if exists i :: 0 <= i < |tafs| && TafKey(tafs[i]) == key {
          var i :| 0 <= i < |tafs| && TafKey(tafs[i]) == key;
          if i < |front| {
            assert TafKey(front[i]) == key;
          }
        }
        if key in KeysOf(front) {
          var i :| 0 <= i < |front| && TafKey(front[i]) == key;
          assert TafKey(tafs[i]) == key;
        }
      }
    }
  }

  /**
   * Each group is the lines of its key in feed order: every member has the key,
   * every line with the key is a member, and no key of the list has an empty group.
   */
  lemma MembersOfKey(tafs: seq<string>, key: string)
    ensures IsSubsequence(Members(tafs, key), tafs)
    ensures forall i :: 0 <= i < |Members(tafs, key)| ==> TafKey(Members(tafs, key)[i]) == key
    ensures forall i :: 0 <= i < |tafs| && TafKey(tafs[i]) == key ==> tafs[i] in Members(tafs, key)
    ensures key in KeysOf(tafs) ==> Members(tafs, key) != []
  {
    FilterIsSubsequence(tafs, HasKey(key));
    KeysComplete(tafs);
    if key in KeysOf(tafs) {
      var i :| 0 <= i < |tafs| && TafKey(tafs[i]) == key;
      assert HasKey(key)(tafs[i]);
    }
  }

  /** Every line lands in exactly one group: that of its own key. */
  lemma GroupOfLine(tafs: seq<string>, i: nat)
    requires i < |tafs|
    ensures TafKey(tafs[i]) in KeysOf(tafs)
    ensures tafs[i] in Members(tafs, TafKey(tafs[i]))
    ensures forall key :: key != TafKey(tafs[i]) ==> tafs[i] !in Members(tafs, key)
  {
    KeysComplete(tafs);
    assert HasKey(TafKey(tafs[i]))(tafs[i]);
  }

  /** One more line adds its key at the end, unless the key is already there. */
  lemma KeysOfSnoc(tafs: seq<string>, taf: string)
    ensures KeysOf(tafs + [taf]) ==
      if TafKey(taf) in KeysOf(tafs) then KeysOf(tafs) else KeysOf(tafs) + [TafKey(taf)]
  {
    assert (tafs + [taf])[..|tafs|] == tafs;
  }

  /** One more line joins the end of its own group and no other. */
  lemma MembersSnoc(tafs: seq<string>, taf: string, key: string)
    ensures Members(tafs + [taf], key) == Members(tafs, key) + (if TafKey(taf) == key then [taf] else [])
  {
    FilterSnoc(tafs, taf, HasKey(key));
  }

  /** A key not yet seen has no members. */
  lemma MembersOfUnseen(tafs: seq<string>, key: string)
    requires key !in KeysOf(tafs)
    ensures Members(tafs, key) == []
  {
    KeysComplete(tafs);
    FilterNone(tafs, HasKey(key));
  }

  /** The state of the grouping after the lines `seen`: the keys so far, and the group of each. */
  ghost predicate Grouped(seen: seq<string>, keys: seq<string>, groups: map<string, seq<string>>) {
    && keys == KeysOf(seen)
    && (forall key :: key in groups <==> key in keys)
    && (forall key :: key in groups ==> groups[key] == Members(seen, key))
  }

  /** The body of the `forEach` callback, for one line. */
  method AddTaf(ghost seen: seq<string>, keys: seq<string>, groups: map<string, seq<string>>, taf: string)
    returns (keys': seq<string>, groups': map<string, seq<string>>)
    requires Grouped(seen, keys, groups)
    ensures Grouped(seen + [taf], keys', groups')
  {
    var key := TafKey(taf);
    KeysOfSnoc(seen, taf);
    keys', groups' := keys, groups;
    if key !in groups {
      MembersOfUnseen(seen, key);
      keys' := keys + [key];
      groups' := groups[key := []];
    }
    groups' := groups'[key := groups'[key] + [taf]];
    forall k | k in groups' ensures groups'[k] == Members(seen + [taf], k) {
      MembersSnoc(seen, taf, k);
    }
  }

  /** `results.taf.forEach(taf => { ... tafsByAirport[airport].push(taf); })`. */
  method GroupTafs(tafs: seq<string>) returns (keys: seq<string>, groups: map<string, seq<string>>)
    ensures keys == KeysOf(tafs)
    ensures forall key :: key in groups <==> key in keys
    ensures forall key :: key in groups ==> groups[key] == Members(tafs, key)
  {
    keys := [];
    groups := map[];
    var i := 0;
    while i < |tafs|
      invariant i <= |tafs|
      invariant Grouped(tafs[..i], keys, groups)
    {
      assert tafs[..i + 1] == tafs[..i] + [tafs[i]];
      keys, groups := AddTaf(tafs[..i], keys, groups, tafs[i]);
      i := i + 1;
    }
    assert tafs[..i] == tafs;
  }
}
