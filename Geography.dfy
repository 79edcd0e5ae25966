/**
 * The administrative-geography tree behind the registration form's dependent
 * selectors: state -> district -> block -> gram panchayat. The tree
 * (`odisha_mapping.json`) is data the model takes as a parameter.
 */
module Geography {
  import opened Wrappers
  import Seqs

  datatype BlockNode = BlockNode(name: string, gramPanchayats: seq<string>)
  datatype DistrictNode = DistrictNode(name: string, blocks: seq<BlockNode>)
  datatype StateNode = StateNode(name: string, districts: seq<DistrictNode>)

  /** The only state whose locations come from the tree; every other state is free text. */
  const Odisha: string := "Odisha"

  function StateName(s: StateNode): string { s.name }
  function DistrictName(d: DistrictNode): string { d.name }
  function BlockName(b: BlockNode): string { b.name }

  /** `nodes.map(n => n.name)`, for districts and blocks alike. */
  function Names<T>(nodes: seq<T>, name: T -> string): (r: seq<string>)
    ensures |r| == |nodes| && forall k :: 0 <= k < |nodes| ==> r[k] == name(nodes[k])
  {
    seq(|nodes|, k requires 0 <= k < |nodes| => name(nodes[k]))
  }

  /** The tree's invariant: a child's name is unique among its siblings. */
  ghost predicate SiblingNamesUnique(states: seq<StateNode>) {
    && (forall i, j :: 0 <= i < j < |states| ==> states[i].name != states[j].name)
    && (forall s, i, j :: s in states && 0 <= i < j < |s.districts| ==> s.districts[i].name != s.districts[j].name)
    && (forall s, d, i, j :: s in states && d in s.districts && 0 <= i < j < |d.blocks| ==> d.blocks[i].name != d.blocks[j].name)
  }

  /** `states.find(state => state.name === 'Odisha')` */
  function OdishaNode(states: seq<StateNode>): Option<StateNode> {
    Seqs.Find(states, StateName, Odisha)
  }

  /**
   * The district effect: when the selected state is Odisha and the tree has an
   * Odisha node, the options become its district names; otherwise `prev` stays.
   */
  function DistrictOptions(states: seq<StateNode>, stallState: string, prev: seq<string>): seq<string> {
    if stallState == Odisha then
      match OdishaNode(states)
      case Some(st) => Names(st.districts, DistrictName)
      case None => prev
    else prev
  }

  /** The block effect: the blocks of the exact path Odisha -> `district`, else `prev`. */
  function BlockOptions(states: seq<StateNode>, stallState: string, district: string, prev: seq<string>): seq<string> {
    if stallState == Odisha && district != "" then
      match OdishaNode(states)
      case None => prev
      case Some(st) =>
        match Seqs.Find(st.districts, DistrictName, district)
        case Some(d) => Names(d.blocks, BlockName)
        case None => prev
    else prev
  }

  /** The gram-panchayat effect: the panchayats of Odisha -> `district` -> `block`, else `prev`. */
  function GramPanchayatOptions(states: seq<StateNode>, stallState: string, district: string, block: string, prev: seq<string>): seq<string> {
    if stallState == Odisha && district != "" && block != "" then
      match OdishaNode(states)
      case None => prev
      case Some(st) =>
        match Seqs.Find(st.districts, DistrictName, district)
        case None => prev
        case Some(d) =>
          match Seqs.Find(d.blocks, BlockName, block)
          case Some(b) => b.gramPanchayats
          case None => prev
    else prev
  }

  /** For a state other than Odisha none of the three effects touches its list. */
  lemma OtherStateKeepsOptions(states: seq<StateNode>, stallState: string, district: string, block: string,
                               ds: seq<string>, bs: seq<string>, gps: seq<string>)
    requires stallState != Odisha
    ensures DistrictOptions(states, stallState, ds) == ds
    ensures BlockOptions(states, stallState, district, bs) == bs
    ensures GramPanchayatOptions(states, stallState, district, block, gps) == gps
  {
  }

  /**
   * District options for Odisha are exactly the Odisha node's district names,
   * in tree order; without an Odisha node the previous list is kept.
   */
  lemma {:induction false} OdishaDistricts(states: seq<StateNode>, prev: seq<string>)
    ensures var r := DistrictOptions(states, Odisha, prev);
      (forall k :: 0 <= k < |states| ==> states[k].name != Odisha) ==> r == prev
    ensures forall k :: 0 <= k < |states| && states[k].name == Odisha && SiblingNamesUnique(states) ==>
      DistrictOptions(states, Odisha, prev) == Names(states[k].districts, DistrictName)
  {
    forall k | 0 <= k < |states| && states[k].name == Odisha && SiblingNamesUnique(states)
      ensures DistrictOptions(states, Odisha, prev) == Names(states[k].districts, DistrictName)
    {
      var i := Seqs.FindIndex(states, StateName, Odisha);
      assert i.Some?;
      assert StateName(states[k]) == Odisha;
      assert i.value == k;
    }
  }

  /**
   * Block options name exactly the blocks under the case-sensitive path
   * Odisha -> `district`: when the path resolves they are that district's block
   * names, in order, and otherwise the previous list is kept unchanged.
   */
  lemma BlockOptionsFollowPath(states: seq<StateNode>, district: string, prev: seq<string>, si: nat, di: nat)
    requires SiblingNamesUnique(states)
    requires si < |states| && states[si].name == Odisha
    requires district != ""
    ensures di < |states[si].districts| && states[si].districts[di].name == district ==>
      BlockOptions(states, Odisha, district, prev) == Names(states[si].districts[di].blocks, BlockName)
    ensures (forall j :: 0 <= j < |states[si].districts| ==> states[si].districts[j].name != district) ==>
      BlockOptions(states, Odisha, district, prev) == prev
  {
    var st := states[si];
    var i := Seqs.FindIndex(states, StateName, Odisha);
    assert StateName(st) == Odisha;
    assert i.Some? && i.value == si;
    if di < |st.districts| && st.districts[di].name == district {
      var j := Seqs.FindIndex(st.districts, DistrictName, district);
      assert DistrictName(st.districts[di]) == district;
      assert j.Some? && j.value == di;
    }
  }

  /**
   * Gram-panchayat options are the panchayats of the exact path
   * Odisha -> `district` -> `block`, or the previous list when the path does not resolve.
   */
  lemma GramPanchayatOptionsFollowPath(states: seq<StateNode>, district: string, block: string, prev: seq<string>,
                                       si: nat, di: nat, bi: nat)
    requires SiblingNamesUnique(states)
    requires si < |states| && states[si].name == Odisha
    requires di < |states[si].districts| && states[si].districts[di].name == district
    requires district != "" && block != ""
    ensures bi < |states[si].districts[di].blocks| && states[si].districts[di].blocks[bi].name == block ==>
      GramPanchayatOptions(states, Odisha, district, block, prev) == states[si].districts[di].blocks[bi].gramPanchayats
    ensures (forall j :: 0 <= j < |states[si].districts[di].blocks| ==> states[si].districts[di].blocks[j].name != block) ==>
      GramPanchayatOptions(states, Odisha, district, block, prev) == prev
  {
    var st := states[si];
    var d := st.districts[di];
    assert StateName(st) == Odisha;
    var i := Seqs.FindIndex(states, StateName, Odisha);
    assert i.Some? && i.value == si;
    assert DistrictName(d) == district;
    var j := Seqs.FindIndex(st.districts, DistrictName, district);
    assert j.Some? && j.value == di;
    if bi < |d.blocks| && d.blocks[bi].name == block {
      assert BlockName(d.blocks[bi]) == block;
      var l := Seqs.FindIndex(d.blocks, BlockName, block);
      assert l.Some? && l.value == bi;
    }
  }

  /**
   * When the path does not resolve, the block and gram-panchayat effects keep
   * their previous lists: an empty district or block, no Odisha node, or a
   * district that names no Odisha district.
   */
  lemma UnresolvedPathKeepsOptions(states: seq<StateNode>, district: string, block: string,
                                   bs: seq<string>, gps: seq<string>, si: nat)
    ensures district == "" ==>
      BlockOptions(states, Odisha, district, bs) == bs && GramPanchayatOptions(states, Odisha, district, block, gps) == gps
    ensures block == "" ==> GramPanchayatOptions(states, Odisha, district, block, gps) == gps
    ensures (forall k :: 0 <= k < |states| ==> states[k].name != Odisha) ==>
      BlockOptions(states, Odisha, district, bs) == bs && GramPanchayatOptions(states, Odisha, district, block, gps) == gps
    ensures (SiblingNamesUnique(states) && si < |states| && states[si].name == Odisha
             && forall j :: 0 <= j < |states[si].districts| ==> states[si].districts[j].name != district) ==>
      BlockOptions(states, Odisha, district, bs) == bs && GramPanchayatOptions(states, Odisha, district, block, gps) == gps
  {
    if SiblingNamesUnique(states) && si < |states| && states[si].name == Odisha
      && (forall j :: 0 <= j < |states[si].districts| ==> states[si].districts[j].name != district)
    {
      assert StateName(states[si]) == Odisha;
      var i := Seqs.FindIndex(states, StateName, Odisha);
      assert i.Some? && i.value == si;
      var st := states[si];
      assert OdishaNode(states) == Some(st);
      assert forall j :: 0 <= j < |st.districts| ==> DistrictName(st.districts[j]) != district;
    }
  }

  /** The selectors' lists as the form holds them. */
  datatype LocationOptions = LocationOptions(districts: seq<string>, blocks: seq<string>, gramPanchayats: seq<string>)

  /** All three effects after a render, each reading the same location. */
  function Refresh(states: seq<StateNode>, stallState: string, district: string, block: string, o: LocationOptions): LocationOptions {
    LocationOptions(
      DistrictOptions(states, stallState, o.districts),
      BlockOptions(states, stallState, district, o.blocks),
      GramPanchayatOptions(states, stallState, district, block, o.gramPanchayats))
  }

  /**
   * Re-running the effects without a change of location changes nothing, so
   * running them after every render is the same as running them only when
   * their dependencies change, as React does.
   */
  lemma RefreshIdempotent(states: seq<StateNode>, stallState: string, district: string, block: string, o: LocationOptions)
    ensures var o' := Refresh(states, stallState, district, block, o);
      Refresh(states, stallState, district, block, o') == o'
  {
  }

  /**
   * Options are only ever drawn from the right scope: districts are empty or
   * the Odisha node's district names; blocks are empty or the block names of
   * one Odisha district; panchayats are empty or those of one Odisha block.
   */
  ghost predicate InScope(states: seq<StateNode>, o: LocationOptions) {
    && (o.districts == [] || exists st :: OdishaNode(states) == Some(st) && o.districts == Names(st.districts, DistrictName))
    && (o.blocks == [] || exists st, d :: OdishaNode(states) == Some(st) && d in st.districts && o.blocks == Names(d.blocks, BlockName))
    && (o.gramPanchayats == [] || exists st, d, b :: OdishaNode(states) == Some(st) && d in st.districts && b in d.blocks && o.gramPanchayats == b.gramPanchayats)
  }

  /** The effects keep the options in scope, whatever the location. */
  lemma RefreshInScope(states: seq<StateNode>, stallState: string, district: string, block: string, o: LocationOptions)
    requires InScope(states, o)
    ensures InScope(states, Refresh(states, stallState, district, block, o))
  {
  }
}
