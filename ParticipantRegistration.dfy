/**
 * The stall registration form: one `Registration` record edited in place by
 * the form's handlers, plus the three dependent location option lists that
 * React effects re-derive from the geography tree after each change.
 */
module ParticipantRegistration {
  import Seqs
  import opened Geography
  import opened Taxonomy

  datatype Gender = Male | Female | OtherGender
  datatype OrganizationType = SHG | PG | PC | Proprietor | PvtCompany | OtherOrganizationType
  datatype Sponsor = DrdaDsms | Kvic | HandiCraft | Nabard | Mvsn | OtherSponsorKind

  datatype Participant = Participant(name: string, phone: string, gender: Gender, profilePhoto: string)

  datatype InventoryItem = InventoryItem(
    productName: string, productCategory: string, photos: seq<string>, quantity: int, value: int)

  datatype Registration = Registration(
    id: string, stallNumber: string, exhibitionId: string,
    stallState: string, otherState: string, stallDistrict: string, stallBlock: string, gramPanchayat: string,
    organizationType: OrganizationType, otherOrganization: string,
    stallSponsor: Sponsor, otherSponsor: string, accommodation: string,
    stallPhotos: seq<string>, participants: seq<Participant>, inventory: seq<InventoryItem>)

  /** The row `addParticipant` appends. */
  const BlankParticipant: Participant := Participant("", "", Male, "")

  /** The row `addInventoryItem` appends. */
  const BlankInventoryItem: InventoryItem := InventoryItem("", "", [], 0, 0)

  /** The form's initial value, and the value it is reset to after a submission. */
  const InitialRegistration: Registration :=
    Registration("", "", "", "", "", "", "", "", SHG, "", DrdaDsms, "", "", [], [], [])

  /** The category/product rule of an inventory row: a new category always clears the product. */
  function WithCategory(item: InventoryItem, c: string): (r: InventoryItem)
    ensures r.productCategory == c && r.productName == ""
    ensures r.quantity == item.quantity && r.value == item.value && r.photos == item.photos
  {
    item.(productCategory := c, productName := "")
  }

  /** A row's product is empty or one of the products the taxonomy lists under its category. */
  ghost predicate RowConsistent(taxonomy: seq<TaxonomyRow>, item: InventoryItem) {
    item.productName == "" || (item.productCategory != "" && item.productName in ProductsByCategory(taxonomy, item.productCategory))
  }

  /**
   * Changing a row's category leaves it consistent whatever the new category,
   * and picking a product from the selector's options for that category does too.
   */
  lemma CategoryThenProductConsistent(taxonomy: seq<TaxonomyRow>, item: InventoryItem, c: string, p: string)
    ensures RowConsistent(taxonomy, WithCategory(item, c))
    ensures c != "" && (p == "" || p in ProductsByCategory(taxonomy, c)) ==>
      RowConsistent(taxonomy, WithCategory(item, c).(productName := p))
  {
  }

  /** Choosing the same category twice is the same as choosing it once. */
  lemma WithCategoryIdempotent(item: InventoryItem, c: string)
    ensures WithCategory(WithCategory(item, c), c) == WithCategory(item, c)
  {
  }

  class RegistrationForm {
    /** The geography tree and the product taxonomy, loaded once. */
    const mapping: seq<StateNode>
    const taxonomy: seq<TaxonomyRow>

    var registration: Registration
    var isOdisha: bool
    var availableDistricts: seq<string>
    var availableBlocks: seq<string>
    var availableGPs: seq<string>
    /** The `registrations` collection as far as this form writes to it. */
    var submitted: seq<Registration>

    ghost function Options(): LocationOptions
      reads this
    {
      LocationOptions(availableDistricts, availableBlocks, availableGPs)
    }

    /** The option lists only ever hold names from the right part of the tree. */
    ghost predicate Valid()
      reads this
    {
      InScope(mapping, Options())
    }

    constructor (mapping: seq<StateNode>, taxonomy: seq<TaxonomyRow>)
      ensures Valid()
      ensures this.mapping == mapping && this.taxonomy == taxonomy
      ensures registration == InitialRegistration && isOdisha
      ensures Options() == LocationOptions([], [], []) && submitted == []
    {
      this.mapping := mapping;
      this.taxonomy := taxonomy;
      registration := InitialRegistration;
      isOdisha := true;
      availableDistricts, availableBlocks, availableGPs := [], [], [];
      submitted := [];
    }

    /** The three location effects, run after a render. */
    method RunEffects()
      requires Valid()
      modifies this
      ensures Valid()
      ensures Options() == Refresh(mapping, registration.stallState, registration.stallDistrict, registration.stallBlock, old(Options()))
      ensures registration == old(registration) && isOdisha == old(isOdisha) && submitted == old(submitted)
    {
      var reg := registration;
      RefreshInScope(mapping, reg.stallState, reg.stallDistrict, reg.stallBlock, Options());
      availableDistricts := DistrictOptions(mapping, reg.stallState, availableDistricts);
      availableBlocks := BlockOptions(mapping, reg.stallState, reg.stallDistrict, availableBlocks);
      availableGPs := GramPanchayatOptions(mapping, reg.stallState, reg.stallDistrict, reg.stallBlock, availableGPs);
    }

    /**
     * Selecting a state sets it, clears district, block, gram panchayat and
     * other state, and sets `isOdisha`. Only the district effect can then
     * fire, because the district is now empty.
     */
    method SelectState(selected: string)
      requires Valid()
      modifies this
      ensures Valid()
      ensures registration == old(registration).(stallState := selected, stallDistrict := "", stallBlock := "",
                                                 gramPanchayat := "", otherState := "")
      ensures isOdisha == (selected == Odisha)
      ensures availableDistricts == DistrictOptions(mapping, selected, old(availableDistricts))
      ensures availableBlocks == old(availableBlocks) && availableGPs == old(availableGPs)
      ensures submitted == old(submitted)
    {
      isOdisha := selected == Odisha;
      registration := registration.(stallState := selected, stallDistrict := "", stallBlock := "",
                                    gramPanchayat := "", otherState := "");
      RunEffects();
    }

    method SetOtherState(s: string)
      requires Valid()
      modifies this
      ensures Valid()
      ensures registration == old(registration).(otherState := s)
      ensures isOdisha == old(isOdisha) && Options() == old(Options()) && submitted == old(submitted)
    {
      registration := registration.(otherState := s);
    }

    /** A new district re-derives the blocks (and, with a block chosen, the panchayats) of the new path. */
    method SetDistrict(d: string)
      requires Valid()
      modifies this
      ensures Valid()
      ensures registration == old(registration).(stallDistrict := d)
      ensures Options() == Refresh(mapping, registration.stallState, d, registration.stallBlock, old(Options()))
      ensures isOdisha == old(isOdisha) && submitted == old(submitted)
    {
      registration := registration.(stallDistrict := d);
      RunEffects();
    }

    method SetBlock(b: string)
      requires Valid()
      modifies this
      ensures Valid()
      ensures registration == old(registration).(stallBlock := b)
      ensures Options() == Refresh(mapping, registration.stallState, registration.stallDistrict, b, old(Options()))
      ensures isOdisha == old(isOdisha) && submitted == old(submitted)
    {
      registration := registration.(stallBlock := b);
      RunEffects();
    }

    method SetGramPanchayat(g: string)
      requires Valid()
      modifies this
      ensures Valid()
      ensures registration == old(registration).(gramPanchayat := g)
      ensures isOdisha == old(isOdisha) && Options() == old(Options()) && submitted == old(submitted)
    {
      registration := registration.(gramPanchayat := g);
    }

    method AddStallPhoto(photo: string)
      requires Valid()
      modifies this
      ensures Valid()
      ensures registration == old(registration).(stallPhotos := old(registration.stallPhotos) + [photo])
      ensures isOdisha == old(isOdisha) && Options() == old(Options()) && submitted == old(submitted)
    {
      registration := registration.(stallPhotos := registration.stallPhotos + [photo]);
    }

    /** The remove button on stall photo `index`. */
    method RemoveStallPhoto(index: nat)
      requires Valid()
      modifies this
      ensures Valid()
      ensures registration == old(registration).(stallPhotos := Seqs.RemoveAt(old(registration.stallPhotos), index))
      ensures isOdisha == old(isOdisha) && Options() == old(Options()) && submitted == old(submitted)
    {
      registration := registration.(stallPhotos := Seqs.RemoveAt(registration.stallPhotos, index));
    }

    method AddParticipant()
      requires Valid()
      modifies this
      ensures Valid()
      ensures registration == old(registration).(participants := old(registration.participants) + [BlankParticipant])
      ensures |registration.participants| == |old(registration.participants)| + 1
      ensures isOdisha == old(isOdisha) && Options() == old(Options()) && submitted == old(submitted)
    {
      registration := registration.(participants := registration.participants + [BlankParticipant]);
    }

    method RemoveParticipant(index: nat)
      requires Valid()
      modifies this
      ensures Valid()
      ensures registration == old(registration).(participants := Seqs.RemoveAt(old(registration.participants), index))
      ensures isOdisha == old(isOdisha) && Options() == old(Options()) && submitted == old(submitted)
    {
      registration := registration.(participants := Seqs.RemoveAt(registration.participants, index));
    }

    method SetParticipantName(index: nat, name: string)
      requires Valid() && index < |registration.participants|
      modifies this
      ensures Valid()
      ensures registration == old(registration).(participants :=
        old(registration.participants)[index := old(registration.participants[index]).(name := name)])
      ensures isOdisha == old(isOdisha) && Options() == old(Options()) && submitted == old(submitted)
    {
      var ps := registration.participants;
      registration := registration.(participants := ps[index := ps[index].(name := name)]);
    }

    method SetParticipantPhone(index: nat, phone: string)
      requires Valid() && index < |registration.participants|
      modifies this
      ensures Valid()
      ensures registration == old(registration).(participants :=
        old(registration.participants)[index := old(registration.participants[index]).(phone := phone)])
      ensures isOdisha == old(isOdisha) && Options() == old(Options()) && submitted == old(submitted)
    {
      var ps := registration.participants;
      registration := registration.(participants := ps[index := ps[index].(phone := phone)]);
    }

    method SetParticipantGender(index: nat, gender: Gender)
      requires Valid() && index < |registration.participants|
      modifies this
      ensures Valid()
      ensures registration == old(registration).(participants :=
        old(registration.participants)[index := old(registration.participants[index]).(gender := gender)])
      ensures isOdisha == old(isOdisha) && Options() == old(Options()) && submitted == old(submitted)
    {
      var ps := registration.participants;
      registration := registration.(participants := ps[index := ps[index].(gender := gender)]);
    }

    /** Sets (or, with `""`, clears) participant `index`'s profile photo and nothing else. */
    method UpdateParticipantPhoto(index: nat, photo: string)
      requires Valid() && index < |registration.participants|
      modifies this
      ensures Valid()
      ensures |registration.participants| == |old(registration.participants)|
      ensures registration.participants[index].profilePhoto == photo
      ensures registration.participants[index] == old(registration.participants[index]).(profilePhoto := photo)
      ensures forall k :: 0 <= k < |registration.participants| && k != index ==>
        registration.participants[k] == old(registration.participants[k])
      ensures registration == old(registration).(participants := registration.participants)
      ensures isOdisha == old(isOdisha) && Options() == old(Options()) && submitted == old(submitted)
    {
      var ps := registration.participants;
      registration := registration.(participants := ps[index := ps[index].(profilePhoto := photo)]);
    }

    method AddInventoryItem()
      requires Valid()
      modifies this
      ensures Valid()
      ensures registration == old(registration).(inventory := old(registration.inventory) + [BlankInventoryItem])
      ensures |registration.inventory| == |old(registration.inventory)| + 1
      ensures isOdisha == old(isOdisha) && Options() == old(Options()) && submitted == old(submitted)
    {
      registration := registration.(inventory := registration.inventory + [BlankInventoryItem]);
    }

    method RemoveInventoryItem(index: nat)
      requires Valid()
      modifies this
      ensures Valid()
      ensures registration == old(registration).(inventory := Seqs.RemoveAt(old(registration.inventory), index))
      ensures isOdisha == old(isOdisha) && Options() == old(Options()) && submitted == old(submitted)
    {
      registration := registration.(inventory := Seqs.RemoveAt(registration.inventory, index));
    }

    /** Row `index` takes the new category and loses its product; every other row and field stays. */
    method SetInventoryCategory(index: nat, category: string)
      requires Valid() && index < |registration.inventory|
      modifies this
      ensures Valid()
      ensures |registration.inventory| == |old(registration.inventory)|
      ensures registration.inventory[index] == WithCategory(old(registration.inventory[index]), category)
      ensures forall k :: 0 <= k < |registration.inventory| && k != index ==>
        registration.inventory[k] == old(registration.inventory[k])
      ensures registration == old(registration).(inventory := registration.inventory)
      ensures isOdisha == old(isOdisha) && Options() == old(Options()) && submitted == old(submitted)
    {
      var inv := registration.inventory;
      registration := registration.(inventory := inv[index := WithCategory(inv[index], category)]);
    }

    method SetInventoryProduct(index: nat, product: string)
      requires Valid() && index < |registration.inventory|
      modifies this
      ensures Valid()
      ensures registration == old(registration).(inventory :=
        old(registration.inventory)[index := old(registration.inventory[index]).(productName := product)])
      ensures isOdisha == old(isOdisha) && Options() == old(Options()) && submitted == old(submitted)
    {
      var inv := registration.inventory;
      registration := registration.(inventory := inv[index := inv[index].(productName := product)]);
    }

    method SetInventoryQuantity(index: nat, quantity: int)
      requires Valid() && index < |registration.inventory|
      modifies this
      ensures Valid()
      ensures registration == old(registration).(inventory :=
        old(registration.inventory)[index := old(registration.inventory[index]).(quantity := quantity)])
      ensures isOdisha == old(isOdisha) && Options() == old(Options()) && submitted == old(submitted)
    {
      var inv := registration.inventory;
      registration := registration.(inventory := inv[index := inv[index].(quantity := quantity)]);
    }

    method SetInventoryValue(index: nat, value: int)
      requires Valid() && index < |registration.inventory|
      modifies this
      ensures Valid()
      ensures registration == old(registration).(inventory :=
        old(registration.inventory)[index := old(registration.inventory[index]).(value := value)])
      ensures isOdisha == old(isOdisha) && Options() == old(Options()) && submitted == old(submitted)
    {
      var inv := registration.inventory;
      registration := registration.(inventory := inv[index := inv[index].(value := value)]);
    }

    /** Appends `photo` to row `index`'s photos; nothing else changes. */
    method UpdateInventoryPhoto(index: nat, photo: string)
      requires Valid() && index < |registration.inventory|
      modifies this
      ensures Valid()
      ensures |registration.inventory| == |old(registration.inventory)|
      ensures registration.inventory[index] ==
        old(registration.inventory[index]).(photos := old(registration.inventory[index].photos) + [photo])
      ensures forall k :: 0 <= k < |registration.inventory| && k != index ==>
        registration.inventory[k] == old(registration.inventory[k])
      ensures registration == old(registration).(inventory := registration.inventory)
      ensures isOdisha == old(isOdisha) && Options() == old(Options()) && submitted == old(submitted)
    {
      var inv := registration.inventory;
      registration := registration.(inventory := inv[index := inv[index].(photos := inv[index].photos + [photo])]);
    }

    method RemoveInventoryPhoto(index: nat, photoIndex: nat)
      requires Valid() && index < |registration.inventory|
      modifies this
      ensures Valid()
      ensures registration == old(registration).(inventory := old(registration.inventory)[index :=
        old(registration.inventory[index]).(photos := Seqs.RemoveAt(old(registration.inventory[index].photos), photoIndex))])
      ensures isOdisha == old(isOdisha) && Options() == old(Options()) && submitted == old(submitted)
    {
      var inv := registration.inventory;
      registration := registration.(inventory := inv[index := inv[index].(photos := Seqs.RemoveAt(inv[index].photos, photoIndex))]);
    }

    /**
     * Submission writes the record as it is, with no validation, and then
     * resets the form to its initial value; a failed write changes nothing.
     * The state flag and option lists are not reset.
     */
    method Submit(storeAccepts: bool)
      requires Valid()
      modifies this
      ensures Valid()
      ensures storeAccepts ==> submitted == old(submitted) + [old(registration)] && registration == InitialRegistration
      ensures !storeAccepts ==> submitted == old(submitted) && registration == old(registration)
      ensures isOdisha == old(isOdisha) && Options() == old(Options())
    {
      if storeAccepts {
        submitted := submitted + [registration];
        registration := InitialRegistration;
        RunEffects();
      }
    }
  }
}
