/** Writing an OpenStreetMap record into `stores`, a table with three unique
    indexes of which an INSERT can name only one as its conflict target. */
module StoreUpsert {
  import opened Common

  type Id = int

  /** Columns that no index or check of the upsert looks at. */
  datatype Details = Details(
    name: string, city: Option<string>, lat: real, lng: real, phone: Option<string>, openingHours: Option<string>)

  datatype Store = Store(
    osmId: Option<int>,
    siret: Option<string>,
    retailer: Option<string>,
    retailerId: Option<int>,
    address: Option<string>,
    postalCode: Option<string>,
    details: Details,
    disabledAt: Option<int>,
    disabled: bool)

  type Table = map<Id, Store>

  /** A normalised record; `tag` is the raw brand tag. */
  datatype Record = Record(
    osmId: int, tag: Option<string>, address: Option<string>, postalCode: Option<string>,
    siret: Option<string>, details: Details)

  /** The retailer a brand tag resolves to. */
  datatype Retailer = Retailer(id: int, canonicalName: string)

  /** The statement succeeds, or PostgreSQL raises a uniqueness violation. */
  datatype Result = Done(table: Table) | Violation

  function Coalesce(o: Option<string>): string {
    if o.Some? then o.value else ""
  }

  type Key = (string, string, string)

  function KeyOf(s: Store): Key {
    (Coalesce(s.retailer), Coalesce(s.address), Coalesce(s.postalCode))
  }

  /** The composite key the pre-check looks for: it uses the raw tag. */
  function LookupKey(r: Record): Key {
    (Coalesce(r.tag), Coalesce(r.address), Coalesce(r.postalCode))
  }

  /** The three unique indexes: osm_id, siret, and (retailer, address, postal_code). */
  predicate Unique(t: Table) {
    && (forall i, j :: i in t && j in t && i != j && t[i].osmId.Some? ==> t[i].osmId != t[j].osmId)
    && (forall i, j :: i in t && j in t && i != j && t[i].siret.Some? ==> t[i].siret != t[j].siret)
    && (forall i, j :: i in t && j in t && i != j ==> KeyOf(t[i]) != KeyOf(t[j]))
  }

  // ── The pieces of the upsert ───────────────────────────────────────────────

  predicate SiretTakenByOther(t: Table, siret: string, osmId: int) {
    exists i :: i in t && t[i].siret == Some(siret) && t[i].osmId != Some(osmId)
  }

  /** The siret that will be written: dropped when another store holds it. */
  function KeptSiret(t: Table, r: Record): Option<string> {
    if r.siret.Some? && r.siret.value != "" && SiretTakenByOther(t, r.siret.value, r.osmId) then None else r.siret
  }

  predicate Collides(t: Table, r: Record, i: Id) {
    i in t && KeyOf(t[i]) == LookupKey(r) && t[i].osmId != Some(r.osmId)
  }

  predicate Carries(t: Table, osmId: int, i: Id) {
    i in t && t[i].osmId == Some(osmId)
  }

  /** The trigger on `stores`: a linked row's text follows its retailer. */
  function SyncedText(text: Option<string>, brand: Option<Retailer>): Option<string> {
    if brand.Some? then Some(brand.value.canonicalName) else text
  }

  function LinkOf(brand: Option<Retailer>): Option<int> {
    if brand.Some? then Some(brand.value.id) else None
  }

  /** UPDATE of an un-owned row: the address columns are not among those set. */
  function Absorbed(s: Store, r: Record, brand: Option<Retailer>, siret: Option<string>): Store {
    Store(Some(r.osmId), siret, SyncedText(s.retailer, brand), LinkOf(brand),
          s.address, s.postalCode, r.details, None, false)
  }

  /** DO UPDATE of the row that already carries the osm_id. */
  function Refreshed(s: Store, r: Record, brand: Option<Retailer>, siret: Option<string>): Store {
    Store(s.osmId, siret, SyncedText(s.retailer, brand), LinkOf(brand), r.address, r.postalCode, r.details, None, false)
  }

  function Inserted(r: Record, brand: Option<Retailer>, siret: Option<string>): Store {
    Store(Some(r.osmId), siret, SyncedText(None, brand), LinkOf(brand), r.address, r.postalCode, r.details, None, false)
  }

  function Write(t: Table, i: Id, s: Store): Result {
    if Unique(t[i := s]) then Done(t[i := s]) else Violation
  }

  ghost function Upsert(t: Table, r: Record, brand: Option<Retailer>, newId: Id): Result {
    var siret := KeptSiret(t, r);
    if exists i :: Collides(t, r, i) then
      var i :| Collides(t, r, i);
      if t[i].osmId == None then Write(t, i, Absorbed(t[i], r, brand, siret)) else Done(t)
    else if exists i :: Carries(t, r.osmId, i) then
      var i :| Carries(t, r.osmId, i);
      Write(t, i, Refreshed(t[i], r, brand, siret))
    else
      Write(t, newId, Inserted(r, brand, siret))
  }

  // ── Which row, and what is written ─────────────────────────────────────────

  lemma CollisionIsUnique(t: Table, r: Record, i: Id, j: Id)
    requires Unique(t) && Collides(t, r, i) && Collides(t, r, j)
    ensures i == j
  {
  }

  lemma CarrierIsUnique(t: Table, osmId: int, i: Id, j: Id)
    requires Unique(t) && Carries(t, osmId, i) && Carries(t, osmId, j)
    ensures i == j
  {
  }

  /** Case analysis of the upsert, free of choice. */
  lemma UpsertAbsorbs(t: Table, r: Record, brand: Option<Retailer>, newId: Id, i: Id)
    requires Unique(t) && Collides(t, r, i)
    ensures Upsert(t, r, brand, newId) ==
      if t[i].osmId == None then Write(t, i, Absorbed(t[i], r, brand, KeptSiret(t, r))) else Done(t)
  {
    var j :| Collides(t, r, j) && Upsert(t, r, brand, newId) ==
      if t[j].osmId == None then Write(t, j, Absorbed(t[j], r, brand, KeptSiret(t, r))) else Done(t);
    CollisionIsUnique(t, r, i, j);
  }

  lemma UpsertRefreshes(t: Table, r: Record, brand: Option<Retailer>, newId: Id, i: Id)
    requires Unique(t) && Carries(t, r.osmId, i) && !exists j :: Collides(t, r, j)
    ensures Upsert(t, r, brand, newId) == Write(t, i, Refreshed(t[i], r, brand, KeptSiret(t, r)))
  {
    var j :| Carries(t, r.osmId, j) &&
      Upsert(t, r, brand, newId) == Write(t, j, Refreshed(t[j], r, brand, KeptSiret(t, r)));
    CarrierIsUnique(t, r.osmId, i, j);
  }

  // ── Exactly when a violation is raised ─────────────────────────────────────

  /** The tag is absent and unresolved, or present and equal to the canonical
      name it resolves to: what the pre-check takes for granted. */
  predicate Aligned(r: Record, brand: Option<Retailer>) {
    if r.tag == None then brand == None else brand.Some? && brand.value.canonicalName == r.tag.value
  }

  /** The key matches a row without an osm_id while another row carries the incoming one. */
  ghost predicate AbsorbClash(t: Table, r: Record) {
    exists i, j :: Collides(t, r, i) && t[i].osmId == None && Carries(t, r.osmId, j)
  }

  /** The row carrying the osm_id keeps a retailer text the record does not know
      of, and that text with the record's address is some other row's key. */
  ghost predicate StaleTextClash(t: Table, r: Record) {
    && (forall i :: !Collides(t, r, i))
    && exists i, j :: Carries(t, r.osmId, i) && j in t && j != i &&
         KeyOf(t[j]) == (Coalesce(t[i].retailer), Coalesce(r.address), Coalesce(r.postalCode))
  }

  /** A written row is compatible with every other row as far as siret goes. */
  lemma KeptSiretIsFree(t: Table, r: Record, i: Id)
    requires r.siret != Some("") && i in t && t[i].osmId != Some(r.osmId)
    ensures KeptSiret(t, r).Some? ==> t[i].siret != KeptSiret(t, r)
  {
  }

  /** One row of a unique table is replaced: what must be checked of it. */
  lemma WriteIsUniqueIff(t: Table, i: Id, s: Store)
    requires Unique(t)
    ensures Unique(t[i := s]) <==> forall j :: j in t && j != i ==>
      && (s.osmId.Some? ==> t[j].osmId != s.osmId)
      && (s.siret.Some? ==> t[j].siret != s.siret)
      && KeyOf(t[j]) != KeyOf(s)
  {
    var t' := t[i := s];
    if Unique(t') {
      forall j | j in t && j != i
        ensures (s.osmId.Some? ==> t[j].osmId != s.osmId) && (s.siret.Some? ==> t[j].siret != s.siret) &&
          KeyOf(t[j]) != KeyOf(s)
      {
        assert t'[j] == t[j] && t'[i] == s;
      }
    }
  }

  lemma AbsorbViolatesIff(t: Table, r: Record, brand: Option<Retailer>, newId: Id, i: Id)
    requires Unique(t) && Aligned(r, brand) && r.siret != Some("")
    requires Collides(t, r, i) && t[i].osmId == None
    ensures Upsert(t, r, brand, newId) == Violation <==> exists j :: Carries(t, r.osmId, j)
  {
    var s := Absorbed(t[i], r, brand, KeptSiret(t, r));
    UpsertAbsorbs(t, r, brand, newId, i);
    WriteIsUniqueIff(t, i, s);
    assert KeyOf(s) == KeyOf(t[i]);
    if j :| Carries(t, r.osmId, j) {
      assert !Unique(t[i := s]);
    } else {
      forall j | j in t && j != i
        ensures t[j].osmId != s.osmId && (s.siret.Some? ==> t[j].siret != s.siret)
      {
        assert !Carries(t, r.osmId, j);
        KeptSiretIsFree(t, r, j);
      }
    }
  }

  lemma RefreshViolatesIff(t: Table, r: Record, brand: Option<Retailer>, newId: Id, i: Id)
    requires Unique(t) && Aligned(r, brand) && r.siret != Some("")
    requires Carries(t, r.osmId, i) && !exists j :: Collides(t, r, j)
    ensures Upsert(t, r, brand, newId) == Violation <==> r.tag == None && StaleTextClash(t, r)
  {
    var s := Refreshed(t[i], r, brand, KeptSiret(t, r));
    UpsertRefreshes(t, r, brand, newId, i);
    WriteIsUniqueIff(t, i, s);
    forall j | j in t && j != i
      ensures t[j].osmId != s.osmId && (s.siret.Some? ==> t[j].siret != s.siret)
    {
      assert !Carries(t, r.osmId, j) by {
        if Carries(t, r.osmId, j) {
          CarrierIsUnique(t, r.osmId, i, j);
        }
      }
      KeptSiretIsFree(t, r, j);
    }
    if r.tag != None {
      forall j | j in t && j != i
        ensures KeyOf(t[j]) != KeyOf(s)
      {
        assert !Collides(t, r, j);
      }
    } else if StaleTextClash(t, r) {
      var i', j :| Carries(t, r.osmId, i') && j in t && j != i' &&
         KeyOf(t[j]) == (Coalesce(t[i'].retailer), Coalesce(r.address), Coalesce(r.postalCode));
      CarrierIsUnique(t, r.osmId, i, i');
      assert KeyOf(t[j]) == KeyOf(s);
    } else {
      forall j | j in t && j != i
        ensures KeyOf(t[j]) != KeyOf(s)
      {
        assert Carries(t, r.osmId, i);
      }
    }
  }

  lemma InsertSucceeds(t: Table, r: Record, brand: Option<Retailer>, newId: Id)
    requires Unique(t) && Aligned(r, brand) && r.siret != Some("") && newId !in t
    requires (forall j :: !Collides(t, r, j)) && (forall j :: !Carries(t, r.osmId, j))
    ensures Upsert(t, r, brand, newId) == Done(t[newId := Inserted(r, brand, KeptSiret(t, r))])
  {
    var s := Inserted(r, brand, KeptSiret(t, r));
    WriteIsUniqueIff(t, newId, s);
    forall j | j in t
      ensures t[j].osmId != s.osmId && (s.siret.Some? ==> t[j].siret != s.siret) && KeyOf(t[j]) != KeyOf(s)
    {
      assert !Carries(t, r.osmId, j) && !Collides(t, r, j);
      KeptSiretIsFree(t, r, j);
    }
  }

  /** A violation is raised exactly when an un-owned row holds the composite key
      while another row carries the osm_id, or, for a record without a brand
      tag, when the refreshed row's old retailer text makes its new key clash. */
  lemma ViolationIff(t: Table, r: Record, brand: Option<Retailer>, newId: Id)
    requires Unique(t) && Aligned(r, brand) && r.siret != Some("") && newId !in t
    ensures Upsert(t, r, brand, newId) == Violation <==> AbsorbClash(t, r) || (r.tag == None && StaleTextClash(t, r))
  {
    if i :| Collides(t, r, i) {
      UpsertAbsorbs(t, r, brand, newId, i);
      if t[i].osmId == None {
        AbsorbViolatesIff(t, r, brand, newId, i);
      }
    } else if i :| Carries(t, r.osmId, i) {
      RefreshViolatesIff(t, r, brand, newId, i);
    } else {
      InsertSucceeds(t, r, brand, newId);
    }
  }

  /** With the brand tag present, only the absorb clash is left. */
  lemma TaggedViolationIff(t: Table, r: Record, brand: Option<Retailer>, newId: Id)
    requires Unique(t) && Aligned(r, brand) && r.tag.Some? && r.siret != Some("") && newId !in t
    ensures Upsert(t, r, brand, newId) == Violation <==> AbsorbClash(t, r)
  {
    ViolationIff(t, r, brand, newId);
  }

  /** Success keeps all three indexes and leaves every row but one alone. */
  lemma UpsertKeepsUnique(t: Table, r: Record, brand: Option<Retailer>, newId: Id)
    requires Unique(t) && Upsert(t, r, brand, newId).Done?
    ensures var t' := Upsert(t, r, brand, newId).table;
      && Unique(t')
      && t.Keys <= t'.Keys
      && exists w :: t'.Keys <= t.Keys + {w} && forall i :: i in t && i != w ==> t'[i] == t[i]
  {
    var t' := Upsert(t, r, brand, newId).table;
    if i :| Collides(t, r, i) {
      UpsertAbsorbs(t, r, brand, newId, i);
      assert t'.Keys <= t.Keys + {i} && forall j :: j in t && j != i ==> t'[j] == t[j];
    } else if i :| Carries(t, r.osmId, i) {
      UpsertRefreshes(t, r, brand, newId, i);
      assert t'.Keys <= t.Keys + {i} && forall j :: j in t && j != i ==> t'[j] == t[j];
    } else {
      assert t'.Keys <= t.Keys + {newId} && forall j :: j in t && j != newId ==> t'[j] == t[j];
    }
  }

  /** Another row already has the composite key the statement would store. The
      pre-check does not look for it: it compares the raw tag, and the stored
      text is the canonical name, or the text an unlinked row already had. */
  ghost predicate StoredKeyTaken(t: Table, r: Record, brand: Option<Retailer>) {
    if exists i :: Collides(t, r, i) then
      exists i, j :: Collides(t, r, i) && t[i].osmId == None && j in t && j != i &&
        KeyOf(t[j]) == (Coalesce(SyncedText(t[i].retailer, brand)), Coalesce(t[i].address), Coalesce(t[i].postalCode))
    else if exists i :: Carries(t, r.osmId, i) then
      exists i, j :: Carries(t, r.osmId, i) && j in t && j != i &&
        KeyOf(t[j]) == (Coalesce(SyncedText(t[i].retailer, brand)), Coalesce(r.address), Coalesce(r.postalCode))
    else
      exists j :: j in t &&
        KeyOf(t[j]) == (Coalesce(SyncedText(None, brand)), Coalesce(r.address), Coalesce(r.postalCode))
  }

  /** A write of a row that carries the record's osm_id and kept siret over row i,
      which no other row carries: only the composite key can clash. */
  lemma WriteClashesOnKey(t: Table, r: Record, i: Id, s: Store)
    requires Unique(t) && r.siret != Some("") && s.osmId == Some(r.osmId) && s.siret == KeptSiret(t, r)
    requires forall j :: j in t && j != i ==> t[j].osmId != Some(r.osmId)
    ensures Write(t, i, s) == Violation <==> exists j :: j in t && j != i && KeyOf(t[j]) == KeyOf(s)
  {
    WriteIsUniqueIff(t, i, s);
    forall j | j in t && j != i
      ensures s.siret.Some? ==> t[j].siret != s.siret
    {
      KeptSiretIsFree(t, r, j);
    }
  }

  /** Whatever the tag resolves to: a violation is raised exactly on an absorb
      clash or when the key that would be stored is taken. */
  lemma AnyTagViolationIff(t: Table, r: Record, brand: Option<Retailer>, newId: Id)
    requires Unique(t) && r.siret != Some("") && newId !in t
    ensures Upsert(t, r, brand, newId) == Violation <==> AbsorbClash(t, r) || StoredKeyTaken(t, r, brand)
  {
    if i :| Collides(t, r, i) {
      AnyTagAbsorbs(t, r, brand, newId, i);
    } else if i :| Carries(t, r.osmId, i) {
      UpsertRefreshes(t, r, brand, newId, i);
      forall j | j in t && j != i
        ensures t[j].osmId != Some(r.osmId)
      {
        assert Carries(t, r.osmId, j) ==> j == i;
      }
      assert forall i' :: Carries(t, r.osmId, i') ==> i' == i;
      WriteClashesOnKey(t, r, i, Refreshed(t[i], r, brand, KeptSiret(t, r)));
    } else {
      forall j | j in t
        ensures t[j].osmId != Some(r.osmId)
      {
        assert !Carries(t, r.osmId, j);
      }
      WriteClashesOnKey(t, r, newId, Inserted(r, brand, KeptSiret(t, r)));
    }
  }

  /** The same for a record whose look-up key finds row i. */
  lemma AnyTagAbsorbs(t: Table, r: Record, brand: Option<Retailer>, newId: Id, i: Id)
    requires Unique(t) && r.siret != Some("") && Collides(t, r, i)
    ensures Upsert(t, r, brand, newId) == Violation <==> AbsorbClash(t, r) || StoredKeyTaken(t, r, brand)
  {
    UpsertAbsorbs(t, r, brand, newId, i);
    assert forall i' :: Collides(t, r, i') ==> i' == i;
    if t[i].osmId == None {
      var s := Absorbed(t[i], r, brand, KeptSiret(t, r));
      if j :| Carries(t, r.osmId, j) {
        WriteIsUniqueIff(t, i, s);
      } else {
        forall j | j in t
          ensures t[j].osmId != Some(r.osmId)
        {
          assert !Carries(t, r.osmId, j);
        }
        WriteClashesOnKey(t, r, i, s);
      }
    }
  }

  function CarrefourAt(details: Details): Store {
    Store(Some(10), None, Some("Carrefour"), Some(7), Some("1 rue A"), Some("75001"), details, None, false)
  }

  /** When the tag is not the canonical name, the pre-check looks up the wrong
      key: a plain insert next to a row with the stored key is a violation. */
  lemma MisalignedTagViolates(details: Details)
    ensures var t := map[1 := CarrefourAt(details)];
      var r := Record(11, Some("carrefour"), Some("1 rue A"), Some("75001"), None, details);
      Unique(t) && !AbsorbClash(t, r) && Upsert(t, r, Some(Retailer(7, "Carrefour")), 2) == Violation
  {
    var t := map[1 := CarrefourAt(details)];
    var r := Record(11, Some("carrefour"), Some("1 rue A"), Some("75001"), None, details);
    var brand := Some(Retailer(7, "Carrefour"));
    assert "Carrefour"[0] != "carrefour"[0];
    assert forall i :: !Collides(t, r, i) && !Carries(t, 11, i);
    var s := Inserted(r, brand, KeptSiret(t, r));
    var t' := t[2 := s];
    assert KeyOf(t'[1]) == KeyOf(t'[2]);
  }

  // ── What a successful application stores ───────────────────────────────────

  /** NULL and the empty text count as the same value of the composite key. */
  predicate SameText(a: Option<string>, b: Option<string>) {
    a == b || ((a == None || a == Some("")) && (b == None || b == Some("")))
  }

  /** Two rows fit in one table exactly when they share no osm_id, no siret, and
      differ in retailer, address or postal code. */
  lemma TwoRowsFitIff(a: Store, b: Store)
    ensures Unique(map[1 := a, 2 := b]) <==>
      && !(a.osmId.Some? && a.osmId == b.osmId)
      && !(a.siret.Some? && a.siret == b.siret)
      && !(SameText(a.retailer, b.retailer) && SameText(a.address, b.address) && SameText(a.postalCode, b.postalCode))
  {
    var t := map[1 := a, 2 := b];
    assert t[1] == a && t[2] == b;
  }

  /** The row holds what the record and the resolved brand say, whichever way it
      was written. */
  predicate Reflects(s: Store, r: Record, brand: Option<Retailer>) {
    && s.osmId == Some(r.osmId) && s.details == r.details && !s.disabled && s.disabledAt == None
    && (brand.Some? ==> s.retailerId == Some(brand.value.id) && s.retailer == Some(brand.value.canonicalName))
    && (brand == None ==> s.retailerId == None)
  }

  /** The record's siret is written unless a row of another osm_id holds it; then
      none is. */
  predicate SiretReflects(t: Table, s: Store, r: Record) {
    if r.siret.Some? && r.siret.value != "" &&
       exists j :: j in t && t[j].siret == r.siret && t[j].osmId != Some(r.osmId)
    then s.siret == None
    else s.siret == r.siret
  }

  /** An un-owned row with the record's key takes on the record and keeps its own
      address; failing that, the row with the record's osm_id takes on record
      and address; failing that, a new row does. A row without a brand keeps
      the retailer text it had. */
  lemma UpsertWrites(t: Table, r: Record, brand: Option<Retailer>, newId: Id, i: Id)
    requires Unique(t) && newId !in t && Upsert(t, r, brand, newId).Done?
    requires if Collides(t, r, i) then t[i].osmId == None
             else forall j :: !Collides(t, r, j) && (Carries(t, r.osmId, j) ==> Carries(t, r.osmId, i))
    requires i !in t ==> i == newId
    requires i in t ==> Collides(t, r, i) || Carries(t, r.osmId, i)
    ensures var t' := Upsert(t, r, brand, newId).table;
      && i in t' && Reflects(t'[i], r, brand) && SiretReflects(t, t'[i], r)
      && (if Collides(t, r, i) then t'[i].address == t[i].address && t'[i].postalCode == t[i].postalCode
          else t'[i].address == r.address && t'[i].postalCode == r.postalCode)
      && (brand == None ==> t'[i].retailer == if i in t then t[i].retailer else None)
      && t'.Keys == t.Keys + {i} && forall j :: j in t && j != i ==> t'[j] == t[j]
  {
    if Collides(t, r, i) {
      UpsertAbsorbs(t, r, brand, newId, i);
    } else if Carries(t, r.osmId, i) {
      UpsertRefreshes(t, r, brand, newId, i);
    }
  }

  /** A key held by a row of another osm_id: the record is skipped. */
  lemma UpsertSkips(t: Table, r: Record, brand: Option<Retailer>, newId: Id, i: Id)
    requires Unique(t) && i in t && t[i].osmId.Some? && t[i].osmId.value != r.osmId
    requires SameText(t[i].retailer, r.tag)
    requires SameText(t[i].address, r.address) && SameText(t[i].postalCode, r.postalCode)
    ensures Upsert(t, r, brand, newId) == Done(t)
  {
    UpsertAbsorbs(t, r, brand, newId, i);
  }

  // ── Applying the same record again ─────────────────────────────────────────

  /** The row the first application absorbs differs from what a refresh would
      leave: it held the incoming siret, or spells an empty column otherwise. */
  ghost predicate AbsorbIsUnfinished(t: Table, r: Record) {
    exists i :: Collides(t, r, i) && t[i].osmId == None &&
      Unfinished(t[i], r)
  }

  /** Once a row carries the osm_id and nothing collides, a successful
      application is a fixed point. */
  lemma RefreshIsStable(t: Table, r: Record, brand: Option<Retailer>, newId: Id, newId': Id, i: Id)
    requires Unique(t) && Carries(t, r.osmId, i) && !exists j :: Collides(t, r, j)
    requires Upsert(t, r, brand, newId).Done?
    ensures var t' := Upsert(t, r, brand, newId).table;
      t' == t[i := Refreshed(t[i], r, brand, KeptSiret(t, r))] && Upsert(t', r, brand, newId') == Done(t')
  {
    UpsertRefreshes(t, r, brand, newId, i);
    var t' := Upsert(t, r, brand, newId).table;
    WrittenRowIsStable(t, t', r, brand, newId', i);
  }

  /** A row written from the record, the others untouched: writing it again changes nothing. */
  lemma WrittenRowIsStable(t: Table, t': Table, r: Record, brand: Option<Retailer>, newId: Id, i: Id)
    requires Unique(t) && Unique(t') && forall j :: !Collides(t, r, j)
    requires forall j :: Carries(t, r.osmId, j) ==> j == i
    requires i in t' && t' == t[i := t'[i]] && Carries(t', r.osmId, i)
    requires i in t ==> Carries(t, r.osmId, i)
    requires t'[i] == Refreshed(t'[i], r, brand, KeptSiret(t, r))
    ensures Upsert(t', r, brand, newId) == Done(t')
  {
    assert forall j :: !Collides(t', r, j) by {
      forall j
        ensures !Collides(t', r, j)
      {
        assert !Collides(t, r, j);
      }
    }
    if r.siret.Some? {
      OthersHoldSiret(t, t', r, i);
    }
    UpsertRefreshes(t', r, brand, newId, i);
    assert t'[i := t'[i]] == t';
  }

  lemma OthersHoldSiret(t: Table, t': Table, r: Record, i: Id)
    requires r.siret.Some? && i in t' && t' == t[i := t'[i]] && Carries(t', r.osmId, i)
    requires i in t ==> t[i].osmId == Some(r.osmId) || t[i].siret != r.siret
    ensures SiretTakenByOther(t, r.siret.value, r.osmId) == SiretTakenByOther(t', r.siret.value, r.osmId)
  {
    if j :| j in t && t[j].siret == Some(r.siret.value) && t[j].osmId != Some(r.osmId) {
      assert t'[j] == t[j];
    }
    if j :| j in t' && t'[j].siret == Some(r.siret.value) && t'[j].osmId != Some(r.osmId) {
      assert j != i && t[j] == t'[j];
    }
  }

  /** Whatever the tag resolves to: once a record has been applied successfully,
      applying it again succeeds and settles it, and changes nothing exactly
      unless the first application left an absorbed row unfinished. */
  lemma SameRecordSettles(t: Table, r: Record, brand: Option<Retailer>, newId: Id, newId': Id, newId'': Id)
    requires Unique(t) && r.siret != Some("") && newId !in t
    requires Upsert(t, r, brand, newId).Done?
    ensures var t1 := Upsert(t, r, brand, newId).table;
      var second := Upsert(t1, r, brand, newId');
      && second.Done?
      && Upsert(second.table, r, brand, newId'') == Done(second.table)
      && (second.table == t1 <==> !AbsorbIsUnfinished(t, r))
  {
    var t1 := Upsert(t, r, brand, newId).table;
    if i :| Collides(t, r, i) {
      UpsertAbsorbs(t, r, brand, newId, i);
      if t[i].osmId == None {
        AbsorbThenRefresh(t, r, brand, newId, newId', newId'', i);
      } else {
        UpsertAbsorbs(t, r, brand, newId', i);
        UpsertAbsorbs(t, r, brand, newId'', i);
        assert !AbsorbIsUnfinished(t, r);
      }
    } else if i :| Carries(t, r.osmId, i) {
      RefreshIsStable(t, r, brand, newId, newId', i);
      RefreshIsStable(t, r, brand, newId, newId'', i);
    } else {
      assert t1 == t[newId := Inserted(r, brand, KeptSiret(t, r))];
      WrittenRowIsStable(t, t1, r, brand, newId', newId);
      WrittenRowIsStable(t, t1, r, brand, newId'', newId);
    }
  }

  /** The two-step case: the first application absorbs row i, the second refreshes it. */
  lemma AbsorbThenRefresh(t: Table, r: Record, brand: Option<Retailer>, newId: Id, newId': Id, newId'': Id, i: Id)
    requires Unique(t) && r.siret != Some("")
    requires Collides(t, r, i) && t[i].osmId == None && Upsert(t, r, brand, newId).Done?
    ensures var t1 := Upsert(t, r, brand, newId).table;
      var second := Upsert(t1, r, brand, newId');
      && second.Done?
      && Upsert(second.table, r, brand, newId'') == Done(second.table)
      && (second.table == t1 <==> !AbsorbIsUnfinished(t, r))
  {
    UpsertAbsorbs(t, r, brand, newId, i);
    var t1 := Upsert(t, r, brand, newId).table;
    assert t1 == t[i := Absorbed(t[i], r, brand, KeptSiret(t, r))];
    AbsorbedCarries(t, t1, r, i);
    forall j
      ensures !Collides(t1, r, j)
    {
      if Collides(t1, r, j) {
        assert Collides(t, r, j);
        CollisionIsUnique(t, r, i, j);
      }
    }
    assert Carries(t1, r.osmId, i);
    var t2 := t1[i := Refreshed(t1[i], r, brand, KeptSiret(t1, r))];
    RefreshSameKeySucceeds(t1, r, brand, newId', i);
    RefreshIsStable(t1, r, brand, newId', newId'', i);
    FinishedIff(t, t1, r, brand, i);
    assert AbsorbIsUnfinished(t, r) <==> Unfinished(t[i], r) by {
      if AbsorbIsUnfinished(t, r) {
        var j :| Collides(t, r, j) && t[j].osmId == None && Unfinished(t[j], r);
        CollisionIsUnique(t, r, i, j);
      }
    }
    assert t2 == t1 <==> t2[i] == t1[i];
  }

  predicate Unfinished(s: Store, r: Record) {
    (r.siret.Some? && s.siret == r.siret) || s.address != r.address || s.postalCode != r.postalCode
  }

  /** A successful absorption leaves row i as the only one with the osm_id, and
      it was carried by none before. */
  lemma AbsorbedCarries(t: Table, t1: Table, r: Record, i: Id)
    requires Unique(t1) && i in t && t[i].osmId == None
    requires i in t1 && t1 == t[i := t1[i]] && t1[i].osmId == Some(r.osmId)
    ensures forall j :: !Carries(t, r.osmId, j)
  {
    assert forall j :: j in t && j != i ==> t1[j] == t[j];
  }

  /** Refreshing a row cannot clash when it leaves the row's key as it is. */
  lemma RefreshSameKeySucceeds(t: Table, r: Record, brand: Option<Retailer>, newId: Id, i: Id)
    requires Unique(t) && r.siret != Some("")
    requires Carries(t, r.osmId, i) && forall j :: !Collides(t, r, j)
    requires KeyOf(Refreshed(t[i], r, brand, KeptSiret(t, r))) == KeyOf(t[i])
    ensures Upsert(t, r, brand, newId).Done?
  {
    UpsertRefreshes(t, r, brand, newId, i);
    forall j | j in t && j != i
      ensures t[j].osmId != Some(r.osmId)
    {
      assert Carries(t, r.osmId, j) ==> j == i;
    }
    WriteClashesOnKey(t, r, i, Refreshed(t[i], r, brand, KeptSiret(t, r)));
  }

  /** Refreshing an absorbed row restores a siret the row itself held, and the
      record's own spelling of its address. */
  lemma FinishedIff(t: Table, t1: Table, r: Record, brand: Option<Retailer>, i: Id)
    requires Unique(t) && r.siret != Some("") && i in t && t[i].osmId == None
    requires forall j :: !Carries(t, r.osmId, j)
    requires t1 == t[i := Absorbed(t[i], r, brand, KeptSiret(t, r))]
    ensures Refreshed(t1[i], r, brand, KeptSiret(t1, r)) == t1[i] <==> !Unfinished(t[i], r)
  {
    if r.siret.Some? {
      if t[i].siret == r.siret {
        assert SiretTakenByOther(t, r.siret.value, r.osmId);
        assert !SiretTakenByOther(t1, r.siret.value, r.osmId);
      } else {
        OthersHoldSiret(t, t1, r, i);
      }
    }
  }

  // ── The table as the batch updates it ──────────────────────────────────────

  class Stores {
    var rows: Table

    constructor (t: Table)
      ensures rows == t
    {
      rows := t;
    }

    method UpsertStore(r: Record, brand: Option<Retailer>, newId: Id) returns (ok: bool)
      requires Unique(rows) && newId !in rows
      modifies this
      ensures Upsert(old(rows), r, brand, newId) == if ok then Done(rows) else Violation
      ensures Unique(rows) && (!ok ==> rows == old(rows))
    {
      var siret := r.siret;
      if siret.Some? && siret.value != "" && SiretTakenByOther(rows, siret.value, r.osmId) {
        siret := None;
      }
      if exists i | i in rows :: Collides(rows, r, i) {
        var i :| i in rows && Collides(rows, r, i);
        UpsertAbsorbs(rows, r, brand, newId, i);
        if rows[i].osmId != None {
          return true;
        }
        ok := Execute(i, Absorbed(rows[i], r, brand, siret));
      } else if exists i | i in rows :: Carries(rows, r.osmId, i) {
        var i :| i in rows && Carries(rows, r.osmId, i);
        UpsertRefreshes(rows, r, brand, newId, i);
        ok := Execute(i, Refreshed(rows[i], r, brand, siret));
      } else {
        ok := Execute(newId, Inserted(r, brand, siret));
      }
    }

    /** One statement: the row is written unless an index refuses it. */
    method Execute(i: Id, s: Store) returns (ok: bool)
      requires Unique(rows)
      modifies this
      ensures Write(old(rows), i, s) == if ok then Done(rows) else Violation
      ensures Unique(rows) && (!ok ==> rows == old(rows))
    {
      ok := Unique(rows[i := s]);
      if ok {
        rows := rows[i := s];
      }
    }
  }
}
