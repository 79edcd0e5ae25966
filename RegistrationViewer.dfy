/**
 * The registration viewer: registrations of one exhibition fetched from the
 * `registrations` collection, an expand toggle per stall, an edit form over
 * one registration whose stall number is withheld, and in-place participant
 * edits. A missing (undefined) stall number is `None`.
 */
module RegistrationViewer {
  import opened Wrappers
  import Seqs

  datatype ViewParticipant = ViewParticipant(name: string, phone: string, gender: string, profilePhoto: string, documents: seq<string>)

  datatype ViewInventoryItem = ViewInventoryItem(productCategory: string, productName: string, quantity: int, value: int, photos: seq<string>)

  datatype ViewRegistration = ViewRegistration(
    id: string, exhibitionId: string, stallNumber: Option<string>, stallName: string,
    stallState: string, otherState: string, stallDistrict: string, stallBlock: string, gramPanchayat: string,
    organizationType: string, otherOrganization: string, stallSponsor: string, otherSponsor: string,
    accommodation: string, participants: seq<ViewParticipant>, inventory: seq<ViewInventoryItem>)

  /** A document of the `registrations` collection. */
  datatype RegistrationDoc = RegistrationDoc(docId: string, data: ViewRegistration)

  /** Which participant row is open for editing. */
  datatype ParticipantRef = ParticipantRef(stallId: string, participantIndex: nat)

  /** The field an input of the edit form writes. */
  datatype FormField =
    | StallName(value: string) | StallState(value: string) | OtherState(value: string)
    | District(value: string) | Block(value: string) | GramPanchayat(value: string)
    | Organization(value: string) | OtherOrganization(value: string)
    | Sponsor(value: string) | OtherSponsor(value: string) | Accommodation(value: string)

  const Odisha := "Odisha"

  // ----------------------------------------------------------- other states

  function NotOdisha(s: string): bool { s != Odisha }

  /** The "Other State" options: states then union territories, without Odisha. */
  function OtherStateOptions(indianStates: seq<string>, unionTerritories: seq<string>): (r: seq<string>)
    ensures Odisha !in r
    ensures forall k :: 0 <= k < |r| ==> r[k] in indianStates || r[k] in unionTerritories
    ensures forall k :: 0 <= k < |indianStates| && indianStates[k] != Odisha ==> indianStates[k] in r
    ensures forall k :: 0 <= k < |unionTerritories| && unionTerritories[k] != Odisha ==> unionTerritories[k] in r
  {
    var all := indianStates + unionTerritories;
    assert forall k :: 0 <= k < |indianStates| ==> all[k] == indianStates[k];
    assert forall k :: 0 <= k < |unionTerritories| ==> all[|indianStates| + k] == unionTerritories[k];
    Seqs.Filter(all, NotOdisha)
  }

  /** The states come first and the territories after them, each in their own order. */
  lemma OtherStateOptionsOrder(indianStates: seq<string>, unionTerritories: seq<string>)
    ensures OtherStateOptions(indianStates, unionTerritories)
      == Seqs.Filter(indianStates, NotOdisha) + Seqs.Filter(unionTerritories, NotOdisha)
    ensures Seqs.IsSubsequence(OtherStateOptions(indianStates, unionTerritories), indianStates + unionTerritories)
  {
    Seqs.FilterConcat(indianStates, unionTerritories, NotOdisha);
    Seqs.FilterIsSubsequence(indianStates + unionTerritories, NotOdisha);
  }

  // ---------------------------------------------------------- expand toggle

  /** A click on a stall's header: collapse it if it is the one open, otherwise open it. */
  function Toggle(expanded: Option<string>, stallId: string): (r: Option<string>)
    ensures r == None <==> expanded == Some(stallId)
    ensures r.Some? ==> r.value == stallId
  {
    if expanded == Some(stallId) then None else Some(stallId)
  }

  /**
   * Two clicks on the same stall restore the previous state exactly when no
   * stall or that stall was open; from another open stall they close everything.
   */
  lemma ToggleTwice(expanded: Option<string>, stallId: string)
    ensures Toggle(Toggle(expanded, stallId), stallId) == expanded <==> expanded == None || expanded == Some(stallId)
    ensures expanded != Some(stallId) ==> Toggle(Toggle(expanded, stallId), stallId) == None
  {
  }

  // -------------------------------------------------------------- edit form

  /** The form opened on a registration: a copy of it without the stall number. */
  function OpenForm(reg: ViewRegistration): (form: ViewRegistration)
    ensures form.stallNumber == None && form.(stallNumber := reg.stallNumber) == reg
  {
    reg.(stallNumber := None)
  }

  /** One input of the edit form; choosing a state clears the location below it. */
  function UpdateForm(form: ViewRegistration, f: FormField): (r: ViewRegistration)
    ensures f.StallState? ==>
      r == form.(stallState := f.value, stallDistrict := "", stallBlock := "", gramPanchayat := "", otherState := "")
    ensures r.id == form.id && r.stallNumber == form.stallNumber && r.exhibitionId == form.exhibitionId
    ensures r.participants == form.participants && r.inventory == form.inventory
  {
    match f
    case StallName(v) => form.(stallName := v)
    case StallState(v) => form.(stallState := v, stallDistrict := "", stallBlock := "", gramPanchayat := "", otherState := "")
    case OtherState(v) => form.(otherState := v)
    case District(v) => form.(stallDistrict := v)
    case Block(v) => form.(stallBlock := v)
    case GramPanchayat(v) => form.(gramPanchayat := v)
    case Organization(v) => form.(organizationType := v)
    case OtherOrganization(v) => form.(otherOrganization := v)
    case Sponsor(v) => form.(stallSponsor := v)
    case OtherSponsor(v) => form.(otherSponsor := v)
    case Accommodation(v) => form.(accommodation := v)
  }

  /** Any sequence of inputs leaves the form's id and missing stall number as they were. */
  lemma {:induction false} FormEditsKeepIdentity(form: ViewRegistration, fs: seq<FormField>)
    ensures ApplyAll(form, fs).id == form.id && ApplyAll(form, fs).stallNumber == form.stallNumber
    decreases |fs|
  {
    if fs != [] {
      FormEditsKeepIdentity(UpdateForm(form, fs[0]), fs[1..]);
    }
  }

  function ApplyAll(form: ViewRegistration, fs: seq<FormField>): ViewRegistration
    decreases |fs|
  {
    if fs == [] then form else ApplyAll(UpdateForm(form, fs[0]), fs[1..])
  }

  /**
   * The store's side of a save: the patch carries every field of the form
   * except the stall number, which is sent as undefined and so stays.
   */
  function PatchDoc(d: RegistrationDoc, form: ViewRegistration): (r: RegistrationDoc)
    ensures r.docId == d.docId && r.data.stallNumber == d.data.stallNumber
    ensures r.data.(stallNumber := form.stallNumber) == form
  {
    d.(data := form.(stallNumber := d.data.stallNumber))
  }

  /** The local side of a save: the form over the registration, keeping its stall number. */
  function Merge(reg: ViewRegistration, form: ViewRegistration): (r: ViewRegistration)
    ensures r.stallNumber == reg.stallNumber && r.(stallNumber := form.stallNumber) == form
  {
    form.(stallNumber := reg.stallNumber)
  }

  /** `{ ...reg, ...editForm }` as written: the form's undefined stall number is copied too. */
  function MergeAsWritten(reg: ViewRegistration, form: ViewRegistration): ViewRegistration {
    var kept := form.(stallNumber := reg.stallNumber);
    kept.(stallNumber := form.stallNumber)
  }

  // ------------------------------------------------------------------ fetch

  /** `{ id: doc.id, ...doc.data() }` with the document id as the entry's id. */
  function View(d: RegistrationDoc): ViewRegistration {
    d.data.(id := d.docId)
  }

  /** As written: the `id` the registration form stores in the data, `''`, overrides the document id. */
  function ViewAsWritten(d: RegistrationDoc): ViewRegistration {
    var withDocId := d.data.(id := d.docId);
    withDocId.(id := d.data.id)
  }

  function Views(view: RegistrationDoc -> ViewRegistration, docs: seq<RegistrationDoc>): seq<ViewRegistration> {
    seq(|docs|, k requires 0 <= k < |docs| => view(docs[k]))
  }

  function OfExhibition(exhibitionId: string): ViewRegistration -> bool {
    (r: ViewRegistration) => r.exhibitionId == exhibitionId
  }

  /** The registrations of one exhibition, each made an entry by `view`. */
  function FetchBy(view: RegistrationDoc -> ViewRegistration, docs: seq<RegistrationDoc>, exhibitionId: string): seq<ViewRegistration> {
    Seqs.Filter(Views(view, docs), OfExhibition(exhibitionId))
  }

  function Fetch(docs: seq<RegistrationDoc>, exhibitionId: string): seq<ViewRegistration> {
    FetchBy(View, docs, exhibitionId)
  }

  function FetchAsWritten(docs: seq<RegistrationDoc>, exhibitionId: string): seq<ViewRegistration> {
    FetchBy(ViewAsWritten, docs, exhibitionId)
  }

  function RegId(r: ViewRegistration): string { r.id }

  predicate HasDoc(docs: seq<RegistrationDoc>, docId: string) {
    exists j :: 0 <= j < |docs| && docs[j].docId == docId
  }

  /** Document ids are non-empty and unique, as the store guarantees. */
  ghost predicate WellFormedDocs(docs: seq<RegistrationDoc>) {
    (forall j :: 0 <= j < |docs| ==> docs[j].docId != "")
    && (forall i, j :: 0 <= i < j < |docs| ==> docs[i].docId != docs[j].docId)
  }

  ghost predicate UniqueIds(regs: seq<ViewRegistration>) {
    forall i, j :: 0 <= i < j < |regs| ==> regs[i].id != regs[j].id
  }

  /** With document ids as entry ids, fetched registrations have distinct ids, each naming a document. */
  lemma FetchIdsUnique(docs: seq<RegistrationDoc>, exhibitionId: string)
    requires WellFormedDocs(docs)
    ensures UniqueIds(Fetch(docs, exhibitionId))
    ensures forall k :: 0 <= k < |Fetch(docs, exhibitionId)| ==> HasDoc(docs, Fetch(docs, exhibitionId)[k].id)
  {
    var v := Views(View, docs);
    forall i, j | 0 <= i < j < |v| ensures RegId(v[i]) != RegId(v[j]) {
      assert v[i] == View(docs[i]) && v[j] == View(docs[j]);
    }
    Seqs.FilterUniqueKeys(v, OfExhibition(exhibitionId), RegId);
    var r := Fetch(docs, exhibitionId);
    forall k | 0 <= k < |r| ensures HasDoc(docs, r[k].id) {
      var j :| 0 <= j < |v| && v[j] == r[k];
      assert v[j] == View(docs[j]);
    }
  }

  /** Every document the registration form writes stores `id: ''` in its data. */
  ghost predicate WrittenByRegistrationForm(docs: seq<RegistrationDoc>) {
    forall j :: 0 <= j < |docs| ==> docs[j].data.id == ""
  }

  /**
   * As written, every fetched registration has the id `''`: expanding or
   * editing one stall does so for all of them, and saves address no document.
   */
  lemma AsWrittenFetchIdsBlank(docs: seq<RegistrationDoc>, exhibitionId: string, i: nat)
    requires WellFormedDocs(docs) && WrittenByRegistrationForm(docs) && i < |FetchAsWritten(docs, exhibitionId)|
    ensures var r := FetchAsWritten(docs, exhibitionId);
      !HasDoc(docs, r[i].id) && forall k :: 0 <= k < |r| ==> r[k].id == r[i].id
  {
    var v := Views(ViewAsWritten, docs);
    var r := FetchAsWritten(docs, exhibitionId);
    forall k | 0 <= k < |r| ensures r[k].id == "" {
      var j :| 0 <= j < |v| && v[j] == r[k];
      assert v[j] == ViewAsWritten(docs[j]);
    }
  }

  /** After a save, the local entry is exactly what reloading the patched document would show. */
  lemma SavedEntryMatchesReload(d: RegistrationDoc, form: ViewRegistration)
    requires form.id == d.docId
    ensures Merge(View(d), form) == View(PatchDoc(d, form))
  {
  }

  /**
   * As written, saving a form opened on a registration with a stall number
   * blanks that number locally while the store keeps it.
   */
  lemma AsWrittenMergeBlanksStallNumber(d: RegistrationDoc)
    requires d.data.stallNumber.Some?
    ensures var form := OpenForm(View(d));
      MergeAsWritten(View(d), form).stallNumber == None
      && MergeAsWritten(View(d), form) != View(PatchDoc(d, form))
  {
  }

  /** Applies `f` to every registration with the given id. */
  function MapWithId(regs: seq<ViewRegistration>, id: string, f: ViewRegistration -> ViewRegistration): (r: seq<ViewRegistration>)
    ensures |r| == |regs|
    ensures forall k :: 0 <= k < |r| ==> r[k] == if regs[k].id == id then f(regs[k]) else regs[k]
  {
    seq(|regs|, k requires 0 <= k < |regs| => if regs[k].id == id then f(regs[k]) else regs[k])
  }

  /**
   * With unique ids, applying `f` to the registration with id `regs[i].id`
   * changes that entry alone; when `f` keeps ids, ids stay unique.
   */
  lemma MapWithIdAt(regs: seq<ViewRegistration>, i: nat, f: ViewRegistration -> ViewRegistration)
    requires UniqueIds(regs) && i < |regs|
    ensures |MapWithId(regs, regs[i].id, f)| == |regs|
    ensures MapWithId(regs, regs[i].id, f)[i] == f(regs[i])
    ensures forall k :: 0 <= k < |regs| && k != i ==> MapWithId(regs, regs[i].id, f)[k] == regs[k]
    ensures (forall x :: f(x).id == x.id) ==> UniqueIds(MapWithId(regs, regs[i].id, f))
  {
    var r := MapWithId(regs, regs[i].id, f);
    forall k | 0 <= k < |regs| && k != i ensures r[k] == regs[k] {
      if k < i {
        assert regs[k].id != regs[i].id;
      } else {
        assert regs[i].id != regs[k].id;
      }
    }
    if forall x :: f(x).id == x.id {
      forall a, b | 0 <= a < b < |r| ensures r[a].id != r[b].id {
        assert r[a].id == regs[a].id && r[b].id == regs[b].id;
      }
    }
  }

  function MapDocWithId(docs: seq<RegistrationDoc>, id: string, f: RegistrationDoc -> RegistrationDoc): (r: seq<RegistrationDoc>)
    ensures |r| == |docs|
    ensures forall k :: 0 <= k < |r| ==> r[k] == if docs[k].docId == id then f(docs[k]) else docs[k]
  {
    seq(|docs|, k requires 0 <= k < |docs| => if docs[k].docId == id then f(docs[k]) else docs[k])
  }

  function MergeWith(form: ViewRegistration): ViewRegistration -> ViewRegistration {
    (reg: ViewRegistration) => Merge(reg, form)
  }

  function PatchWith(form: ViewRegistration): RegistrationDoc -> RegistrationDoc {
    (d: RegistrationDoc) => PatchDoc(d, form)
  }

  function WithParticipants(ps: seq<ViewParticipant>): ViewRegistration -> ViewRegistration {
    (reg: ViewRegistration) => reg.(participants := ps)
  }

  function DocWithParticipants(ps: seq<ViewParticipant>): RegistrationDoc -> RegistrationDoc {
    (d: RegistrationDoc) => d.(data := d.data.(participants := ps))
  }

  // ----------------------------------------------------------------- viewer

  class Viewer {
    var docs: seq<RegistrationDoc>
    var selectedExhibition: string
    var registrations: seq<ViewRegistration>
    var expandedStall: Option<string>
    var editingParticipant: Option<ParticipantRef>
    var editingRegistration: Option<string>
    /** `None` is the empty form `{}`. */
    var editForm: Option<ViewRegistration>
    var error: Option<string>

    /** Registrations have distinct ids, and an open form belongs to the registration being edited. */
    ghost predicate Valid()
      reads this
    {
      WellFormedDocs(docs) && UniqueIds(registrations)
      && (editingRegistration.Some? <==> editForm.Some?)
      && (editForm.Some? ==> editForm.value.id == editingRegistration.value)
    }

    constructor (docs: seq<RegistrationDoc>)
      requires WellFormedDocs(docs)
      ensures Valid() && this.docs == docs
      ensures selectedExhibition == "" && registrations == [] && expandedStall == None
      ensures editingParticipant == None && editingRegistration == None && editForm == None && error == None
    {
      this.docs := docs;
      selectedExhibition, registrations := "", [];
      expandedStall, editingParticipant := None, None;
      editingRegistration, editForm, error := None, None, None;
    }

    method SelectExhibition(exhibitionId: string)
      requires Valid()
      modifies this`selectedExhibition, this`registrations
      ensures Valid()
      ensures selectedExhibition == exhibitionId
      ensures registrations == if exhibitionId != "" then Fetch(docs, exhibitionId) else old(registrations)
    {
      selectedExhibition := exhibitionId;
      if exhibitionId != "" {
        FetchIdsUnique(docs, exhibitionId);
        registrations := Fetch(docs, exhibitionId);
      }
    }

    method ToggleExpand(stallId: string)
      requires Valid()
      modifies this`expandedStall
      ensures Valid()
      ensures expandedStall == Toggle(old(expandedStall), stallId)
    {
      expandedStall := Toggle(expandedStall, stallId);
    }

    /** The edit button of registration `i`. */
    method OpenEditForm(i: nat)
      requires Valid() && i < |registrations|
      modifies this`editingRegistration, this`editForm
      ensures Valid()
      ensures editingRegistration == Some(registrations[i].id)
      ensures editForm == Some(OpenForm(registrations[i]))
    {
      editingRegistration := Some(registrations[i].id);
      editForm := Some(OpenForm(registrations[i]));
    }

    method CancelEditForm()
      requires Valid()
      modifies this`editingRegistration, this`editForm
      ensures Valid()
      ensures editingRegistration == None && editForm == None
    {
      editingRegistration, editForm := None, None;
    }

    method ChangeEditForm(f: FormField)
      requires Valid() && editForm.Some?
      modifies this`editForm
      ensures Valid()
      ensures editForm == Some(UpdateForm(old(editForm.value), f))
    {
      editForm := Some(UpdateForm(editForm.value, f));
    }

    /**
     * `handleRegistrationEdit`: the store patches the document and keeps its
     * stall number; locally the form is merged over that registration only,
     * keeping its stall number; then the form closes. A refused update sets
     * the error and changes nothing else.
     */
    method SaveRegistrationEdit(registrationId: string, storeAccepts: bool)
      requires Valid() && editingRegistration == Some(registrationId)
      modifies this`docs, this`registrations, this`editingRegistration, this`editForm, this`error
      ensures Valid()
      ensures storeAccepts && HasDoc(old(docs), registrationId) ==>
        docs == MapDocWithId(old(docs), registrationId, PatchWith(old(editForm.value)))
        && registrations == MapWithId(old(registrations), registrationId, MergeWith(old(editForm.value)))
        && editingRegistration == None && editForm == None && error == old(error)
      ensures !(storeAccepts && HasDoc(old(docs), registrationId)) ==>
        docs == old(docs) && registrations == old(registrations) && editingRegistration == old(editingRegistration)
        && editForm == old(editForm) && error == Some("Failed to update registration")
    {
      var form := editForm.value;
      if storeAccepts && HasDoc(docs, registrationId) {
        docs := MapDocWithId(docs, registrationId, PatchWith(form));
        registrations := MapWithId(registrations, registrationId, MergeWith(form));
        editingRegistration, editForm := None, None;
      } else {
        error := Some("Failed to update registration");
      }
    }

    method StartParticipantEdit(stallId: string, index: nat)
      requires Valid()
      modifies this`editingParticipant
      ensures Valid() && editingParticipant == Some(ParticipantRef(stallId, index))
    {
      editingParticipant := Some(ParticipantRef(stallId, index));
    }

    method CancelParticipantEdit()
      requires Valid()
      modifies this`editingParticipant
      ensures Valid() && editingParticipant == None
    {
      editingParticipant := None;
    }

    /**
     * `handleParticipantEdit`: participant `p` of registration `i` is replaced
     * in the store and locally; no other participant and no other
     * registration changes. A refused update sets the error and changes
     * nothing else.
     */
    method HandleParticipantEdit(i: nat, p: nat, updated: ViewParticipant, storeAccepts: bool)
      requires Valid() && i < |registrations| && p < |registrations[i].participants|
      modifies this`docs, this`registrations, this`editingParticipant, this`error
      ensures Valid()
      ensures storeAccepts && HasDoc(old(docs), old(registrations[i].id)) ==>
        |registrations| == |old(registrations)|
        && registrations[i] == old(registrations[i]).(participants := old(registrations[i].participants)[p := updated])
        && (forall k :: 0 <= k < |registrations| && k != i ==> registrations[k] == old(registrations[k]))
        && docs == MapDocWithId(old(docs), old(registrations[i].id), DocWithParticipants(old(registrations[i].participants)[p := updated]))
        && editingParticipant == None && error == old(error)
      ensures !(storeAccepts && HasDoc(old(docs), old(registrations[i].id))) ==>
        docs == old(docs) && registrations == old(registrations) && editingParticipant == old(editingParticipant)
        && error == Some("Failed to update participant")
    {
      var reg := registrations[i];
      var ps := reg.participants[p := updated];
      if storeAccepts && HasDoc(docs, reg.id) {
        docs := MapDocWithId(docs, reg.id, DocWithParticipants(ps));
        registrations := MapWithId(registrations, reg.id, WithParticipants(ps));
        editingParticipant := None;
      } else {
        error := Some("Failed to update participant");
      }
    }
  }
}
