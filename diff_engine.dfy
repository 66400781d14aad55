/**
 The post-processing half of `get_changes` (utils.py).

 The semantic diff itself (`diff_main` followed by `diff_cleanupSemantic`
 of the diff-match-patch library) is not modelled: it is an uninterpreted
 total function from two texts to an edit script. What is modelled is
 what `get_changes` does with that script: it drops the unchanged
 operations, splits the rest into removals and additions (each in script
 order), zips the two lists positionally and returns `None` when the
 zipped list is empty.
 */
module DiffEngine {
  import opened Wrappers

  /** Operation codes of the diff-match-patch library. */
  const Delete: int := -1
  const Equal: int := 0
  const Insert: int := 1

  /** One operation of an edit script: `(code, text)`. */
  type EditOp = (int, string)

  /** A `(removal, addition)` pair of the change-set. */
  type ChangePair = (EditOp, EditOp)

  /** The diff library, seen as an uninterpreted function of the two texts. */
  type Differ = (string, string) -> seq<EditOp>

  /** Every operation carries one of the three codes the library produces. */
  predicate WellFormed(script: seq<EditOp>)
  {
    forall i :: 0 <= i < |script| ==> script[i].0 in {Delete, Equal, Insert}
  }

  /** Number of operations of `script` whose code is `code`. */
  function CountCode(script: seq<EditOp>, code: int): nat
  {
    if script == [] then 0
    else (if script[0].0 == code then 1 else 0) + CountCode(script[1..], code)
  }

  function Min(a: nat, b: nat): nat
  {
    if a <= b then a else b
  }

  /** The unchanged text is removed: the operations whose code is not
      `Equal`, in script order. */
  function RemoveUnchanged(script: seq<EditOp>): (r: seq<EditOp>)
    ensures forall k :: 0 <= k < |r| ==> r[k].0 != Equal
    ensures forall x :: x in r ==> x in script
    ensures |r| == |script| - CountCode(script, Equal)
  {
    if script == [] then []
    else (if script[0].0 != Equal then [script[0]] else []) + RemoveUnchanged(script[1..])
  }

  /** The list comprehension `[change for change in diff if change[0] == code]`. */
  function OpsWithCode(script: seq<EditOp>, code: int): (r: seq<EditOp>)
    ensures forall k :: 0 <= k < |r| ==> r[k].0 == code
    ensures forall x :: x in r ==> x in script
    ensures |r| == CountCode(script, code)
  {
    if script == [] then []
    else (if script[0].0 == code then [script[0]] else []) + OpsWithCode(script[1..], code)
  }

  /** Python's `zip`: pairs up elements positionally and stops at the
      shorter list. */
  function Zip<A, B>(xs: seq<A>, ys: seq<B>): (r: seq<(A, B)>)
    ensures |r| == Min(|xs|, |ys|)
    ensures forall k :: 0 <= k < |r| ==> r[k] == (xs[k], ys[k])
  {
    if xs == [] || ys == [] then []
    else [(xs[0], ys[0])] + Zip(xs[1..], ys[1..])
  }

  /** `get_changes` after the library calls: filter, partition, zip, and
      `None` for an empty result. */
  function PairChanges(script: seq<EditOp>): (r: Option<seq<ChangePair>>)
    ensures r.None? <==> CountCode(script, Delete) == 0 || CountCode(script, Insert) == 0
    ensures r.Some? ==> |r.value| == Min(CountCode(script, Delete), CountCode(script, Insert))
    ensures r.Some? ==> forall k :: 0 <= k < |r.value| ==>
      r.value[k].0.0 == Delete && r.value[k].1.0 == Insert
    ensures r.Some? ==> forall k :: 0 <= k < |r.value| ==>
      r.value[k].0 in script && r.value[k].1 in script
    ensures r.Some? ==> forall k :: 0 <= k < |r.value| ==>
      r.value[k] == (OpsWithCode(script, Delete)[k], OpsWithCode(script, Insert)[k])
  {
    var diff := RemoveUnchanged(script);
    SignalSurvivesCleanup(script, Delete);
    SignalSurvivesCleanup(script, Insert);
    var removals := OpsWithCode(diff, Delete);
    var additions := OpsWithCode(diff, Insert);
    var changes := Zip(removals, additions);
    if changes == [] then None else Some(changes)
  }

  /** `get_changes(old_text, new_text)`: the library's edit script, then
      the post-processing. */
  function GetChanges(diff: Differ, oldText: string, newText: string): (r: Option<seq<ChangePair>>)
    ensures r.Some? ==> r.value != []
  {
    PairChanges(diff(oldText, newText))
  }

  // ---------------------------------------------------------------------
  // Counting lemmas

  lemma {:induction false} CountAbsent(script: seq<EditOp>, code: int)
    requires forall i :: 0 <= i < |script| ==> script[i].0 != code
    ensures CountCode(script, code) == 0
  {
    if script != [] {
      CountAbsent(script[1..], code);
    }
  }

  /** Counting by code is the same before and after the cleanup step, and so
      are the removals and additions: dropping `Equal` operations loses no
      signal. */
  lemma {:induction false} SignalSurvivesCleanup(script: seq<EditOp>, code: int)
    requires code != Equal
    ensures OpsWithCode(RemoveUnchanged(script), code) == OpsWithCode(script, code)
    ensures CountCode(RemoveUnchanged(script), code) == CountCode(script, code)
  {
    if script != [] {
      var head := if script[0].0 != Equal then [script[0]] else [];
      SignalSurvivesCleanup(script[1..], code);
      assert RemoveUnchanged(script) == head + RemoveUnchanged(script[1..]);
      if head == [] {
        assert RemoveUnchanged(script) == RemoveUnchanged(script[1..]);
      } else {
        assert RemoveUnchanged(script)[0] == script[0];
        assert RemoveUnchanged(script)[1..] == RemoveUnchanged(script[1..]);
      }
    }
  }

  /** On a well-formed script the cleaned list is split exactly into removals
      and additions: every remaining operation lands in one of the two lists. */
  lemma {:induction false} CleanupPartitions(script: seq<EditOp>)
    requires WellFormed(script)
    ensures forall k :: 0 <= k < |RemoveUnchanged(script)| ==>
      RemoveUnchanged(script)[k].0 == Delete || RemoveUnchanged(script)[k].0 == Insert
    ensures |RemoveUnchanged(script)| == CountCode(script, Delete) + CountCode(script, Insert)
  {
    if script != [] {
      assert WellFormed(script[1..]) by {
        forall i | 0 <= i < |script[1..]| ensures script[1..][i].0 in {Delete, Equal, Insert} {
          assert script[1..][i] == script[i + 1];
        }
      }
      CleanupPartitions(script[1..]);
      assert script[0].0 in {Delete, Equal, Insert};
    }
  }

  // ---------------------------------------------------------------------
  // Order: the k-th removal (addition) is the k-th delete (insert)

  /** An operation with code `code` at position `i` of the script is the
      `n`-th element of the filtered list, where `n` is the number of
      operations with that code before it. */
  lemma {:induction false} OpsWithCodeAt(script: seq<EditOp>, code: int, i: nat)
    requires i < |script| && script[i].0 == code
    ensures CountCode(script[..i], code) < |OpsWithCode(script, code)|
    ensures OpsWithCode(script, code)[CountCode(script[..i], code)] == script[i]
  {
    var rest := OpsWithCode(script[1..], code);
    if i == 0 {
      assert script[..0] == [];
      assert OpsWithCode(script, code) == [script[0]] + rest;
    } else {
      assert script[..i][0] == script[0];
      assert script[..i][1..] == script[1..][..i - 1];
      OpsWithCodeAt(script[1..], code, i - 1);
      assert script[1..][i - 1] == script[i];
      if script[0].0 == code {
        assert OpsWithCode(script, code) == [script[0]] + rest;
      } else {
        assert OpsWithCode(script, code) == rest;
      }
    }
  }

  /** Conversely, the `k`-th element of the filtered list sits at a position
      of the script with exactly `k` operations of that code before it. */
  lemma {:induction false} KthOpWithCode(script: seq<EditOp>, code: int, k: nat) returns (i: nat)
    requires k < |OpsWithCode(script, code)|
    ensures i < |script| && script[i].0 == code
    ensures CountCode(script[..i], code) == k
    ensures OpsWithCode(script, code)[k] == script[i]
  {
    var rest := OpsWithCode(script[1..], code);
    if script[0].0 == code {
      assert OpsWithCode(script, code) == [script[0]] + rest;
      if k == 0 {
        i := 0;
        assert script[..0] == [];
      } else {
        var j := KthOpWithCode(script[1..], code, k - 1);
        i := j + 1;
        assert script[..i][1..] == script[1..][..j];
      }
    } else {
      assert OpsWithCode(script, code) == rest;
      var j := KthOpWithCode(script[1..], code, k);
      i := j + 1;
      assert script[..i][1..] == script[1..][..j];
    }
  }

  // ---------------------------------------------------------------------
  // Properties of get_changes

  /** The `k`-th pair is made of the `k`-th delete and the `k`-th insert of
      the edit script, counted in script order. */
  lemma PairIsKthDeleteAndInsert(script: seq<EditOp>, k: nat) returns (i: nat, j: nat)
    requires PairChanges(script).Some? && k < |PairChanges(script).value|
    ensures i < |script| && script[i].0 == Delete && CountCode(script[..i], Delete) == k
    ensures j < |script| && script[j].0 == Insert && CountCode(script[..j], Insert) == k
    ensures PairChanges(script).value[k] == (script[i], script[j])
  {
    i := KthOpWithCode(script, Delete, k);
    j := KthOpWithCode(script, Insert, k);
  }

  /** A delete that has a partner insert (fewer earlier deletes than there
      are inserts) appears as the removal of the pair with that rank. */
  lemma DeleteIsPaired(script: seq<EditOp>, i: nat)
    requires i < |script| && script[i].0 == Delete
    requires CountCode(script[..i], Delete) < CountCode(script, Insert)
    ensures PairChanges(script).Some?
    ensures CountCode(script[..i], Delete) < |PairChanges(script).value|
    ensures PairChanges(script).value[CountCode(script[..i], Delete)].0 == script[i]
  {
    OpsWithCodeAt(script, Delete, i);
  }

  /** An insert that has a partner delete appears as the addition of the
      pair with that rank. */
  lemma InsertIsPaired(script: seq<EditOp>, j: nat)
    requires j < |script| && script[j].0 == Insert
    requires CountCode(script[..j], Insert) < CountCode(script, Delete)
    ensures PairChanges(script).Some?
    ensures CountCode(script[..j], Insert) < |PairChanges(script).value|
    ensures PairChanges(script).value[CountCode(script[..j], Insert)].1 == script[j]
  {
    OpsWithCodeAt(script, Insert, j);
  }

  /** A script made only of unchanged text (what the library returns for two
      identical texts) yields `None`. */
  lemma OnlyEqualGivesNone(script: seq<EditOp>)
    requires forall i :: 0 <= i < |script| ==> script[i].0 == Equal
    ensures PairChanges(script) == None
  {
    CountAbsent(script, Delete);
  }

  /** For identical texts, `get_changes` returns `None` whenever the library
      reports the text as unchanged. */
  lemma IdenticalTextsGiveNone(diff: Differ, text: string)
    requires forall i :: 0 <= i < |diff(text, text)| ==> diff(text, text)[i].0 == Equal
    ensures GetChanges(diff, text, text) == None
  {
    OnlyEqualGivesNone(diff(text, text));
  }

  /** Every pair's fragments are non-empty when the library's fragments are. */
  lemma PairFragmentsNonEmpty(script: seq<EditOp>)
    requires forall i :: 0 <= i < |script| ==> script[i].1 != ""
    ensures PairChanges(script).Some? ==> forall k :: 0 <= k < |PairChanges(script).value| ==>
      PairChanges(script).value[k].0.1 != "" && PairChanges(script).value[k].1.1 != ""
  {
  }

  /** Surplus deletes are dropped: two deletes and one insert give one pair. */
  lemma SurplusDeleteDropped()
    ensures PairChanges([(Delete, "a"), (Delete, "b"), (Insert, "c")])
         == Some([((Delete, "a"), (Insert, "c"))])
  {
    var script := [(Delete, "a"), (Delete, "b"), (Insert, "c")];
    assert script[1..] == [(Delete, "b"), (Insert, "c")];
    assert script[1..][1..] == [(Insert, "c")];
    assert script[1..][1..][1..] == [];
    assert script[..2] == [(Delete, "a"), (Delete, "b")];
    assert CountCode(script[..2], Insert) == 0 by {
      CountAbsent(script[..2], Insert);
    }
    OpsWithCodeAt(script, Delete, 0);
    OpsWithCodeAt(script, Insert, 2);
    assert CountCode(script, Delete) == 2;
    assert CountCode(script, Insert) == 1;
    var r := PairChanges(script);
    assert r.Some? && |r.value| == 1;
    assert r.value[0] == (script[0], script[2]);
    assert r.value == [r.value[0]];
  }

  /** A script with only deletes yields `None`: removals without additions are
      not reported. */
  lemma DeletesOnlyGiveNone(script: seq<EditOp>)
    requires forall i :: 0 <= i < |script| ==> script[i].0 == Delete
    ensures PairChanges(script) == None
  {
    CountAbsent(script, Insert);
  }
}
