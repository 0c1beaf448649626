/** The order form page: the submitted form state becomes a list of
    catalogue items, and an order for the selected customer is appended to
    the session's orders. */
module OrderForm {
  import opened Results
  import opened Tables
  import opened Models
  import opened Ingestion

  /** What the form submits. The soap counts come from number inputs whose
      minimum is 0. */
  datatype FormState = FormState(
    customerName: string,
    services: set<string>,
    extras: set<string>,
    useTitan: bool,
    nDetergent: nat,
    nFabcon: nat,
    nBleach: nat)

  /** A dict from item name to item filled in list order, so that a later
      item replaces an earlier one of the same name. */
  function ItemMapOf(items: seq<Item>): map<string, Item> {
    if items == [] then map[]
    else ItemMapOf(items[..|items| - 1])[items[|items| - 1].name := items[|items| - 1]]
  }

  /** The dict has a key for exactly the names of the items, and each key
      maps to an item of that name taken from the list. */
  lemma {:induction false} ItemMapOfLookup(items: seq<Item>)
    ensures forall n :: n in ItemMapOf(items) <==> n in ItemNames(items)
    ensures forall n :: n in ItemMapOf(items) ==> ItemMapOf(items)[n].name == n && ItemMapOf(items)[n] in items
  {
    if items != [] {
      var init := items[..|items| - 1];
      ItemMapOfLookup(init);
      assert ItemNames(items) == ItemNames(init) + [items[|items| - 1].name];
      assert items == init + [items[|items| - 1]];
    }
  }

  /** The catalogue by item name. */
  function ItemMap(): map<string, Item> {
    ItemMapOf(ItemList())
  }

  /** The catalogue items the form can put in an order. */
  datatype ItemKind =
    | TitanWash | TitanDry | ExtraTitanDry
    | RegularWash | RegularDry | ExtraRegularDry
    | Fold | ArielDetergent | DowneyFabcon | ZonroxBleach | HandWash

  /** The catalogue name the form looks each item up by. */
  function NameOf(k: ItemKind): string {
    match k
    case TitanWash => "TITAN Wash"
    case TitanDry => "TITAN Dry"
    case ExtraTitanDry => "Extra TITAN Dry"
    case RegularWash => "Regular Wash"
    case RegularDry => "Regular Dry"
    case ExtraRegularDry => "Extra Regular Dry"
    case Fold => "Fold"
    case ArielDetergent => "Ariel Detergent"
    case DowneyFabcon => "Downey Fabcon"
    case ZonroxBleach => "Zonrox Colorsafe Bleach"
    case HandWash => "Hand Wash"
  }

  function KindNamed(s: string): Option<ItemKind> {
    if s == "TITAN Wash" then Some(TitanWash)
    else if s == "TITAN Dry" then Some(TitanDry)
    else if s == "Extra TITAN Dry" then Some(ExtraTitanDry)
    else if s == "Regular Wash" then Some(RegularWash)
    else if s == "Regular Dry" then Some(RegularDry)
    else if s == "Extra Regular Dry" then Some(ExtraRegularDry)
    else if s == "Fold" then Some(Fold)
    else if s == "Ariel Detergent" then Some(ArielDetergent)
    else if s == "Downey Fabcon" then Some(DowneyFabcon)
    else if s == "Zonrox Colorsafe Bleach" then Some(ZonroxBleach)
    else if s == "Hand Wash" then Some(HandWash)
    else None
  }

  /** Each item's name identifies the item. */
  lemma NameRoundTrip(k: ItemKind)
    ensures KindNamed(NameOf(k)) == Some(k)
  {
    match k
    case TitanWash =>
    case TitanDry =>
    case ExtraTitanDry =>
    case RegularWash =>
    case RegularDry =>
    case ExtraRegularDry =>
    case Fold =>
    case ArielDetergent =>
    case DowneyFabcon =>
    case ZonroxBleach =>
    case HandWash =>
  }

  lemma NameOfInjective(a: ItemKind, b: ItemKind)
    ensures NameOf(a) == NameOf(b) ==> a == b
  {
    NameRoundTrip(a);
    NameRoundTrip(b);
  }

  /** The catalogue item of each kind, by its position in the item list. */
  function CatalogueItem(k: ItemKind): (it: Item)
    ensures it.name == NameOf(k)
  {
    var items := ItemList();
    match k
    case ArielDetergent => items[0]
    case DowneyFabcon => items[1]
    case ZonroxBleach => items[2]
    case RegularWash => items[3]
    case TitanWash => items[4]
    case HandWash => items[5]
    case RegularDry => items[6]
    case TitanDry => items[7]
    case ExtraRegularDry => items[8]
    case ExtraTitanDry => items[9]
    case Fold => items[10]
  }

  lemma CatalogueItemListed(k: ItemKind)
    ensures CatalogueItem(k) in ItemList()
  {
    var items := ItemList();
    match k
    case ArielDetergent => assert items[0] in items;
    case DowneyFabcon => assert items[1] in items;
    case ZonroxBleach => assert items[2] in items;
    case RegularWash => assert items[3] in items;
    case TitanWash => assert items[4] in items;
    case HandWash => assert items[5] in items;
    case RegularDry => assert items[6] in items;
    case TitanDry => assert items[7] in items;
    case ExtraRegularDry => assert items[8] in items;
    case ExtraTitanDry => assert items[9] in items;
    case Fold => assert items[10] in items;
  }

  /** In a list whose names are distinct, an item is determined by its name. */
  lemma SameNameSameItem(items: seq<Item>, a: Item, b: Item)
    requires NoDuplicates(ItemNames(items))
    requires a in items && b in items && a.name == b.name
    ensures a == b
  {
    var i :| 0 <= i < |items| && items[i] == a;
    var j :| 0 <= j < |items| && items[j] == b;
    assert ItemNames(items)[i] == ItemNames(items)[j];
  }

  /** Every name the form looks up is a key of the catalogue dict, and the
      lookup gives the catalogue item of that kind. */
  lemma CatalogueLookups()
    ensures forall k :: NameOf(k) in ItemMap() && ItemMap()[NameOf(k)] == CatalogueItem(k)
  {
    ItemMapOfLookup(ItemList());
    forall k: ItemKind ensures NameOf(k) in ItemMap() && ItemMap()[NameOf(k)] == CatalogueItem(k) {
      var names := ItemNames(ItemList());
      var it := CatalogueItem(k);
      CatalogueItemListed(k);
      var i :| 0 <= i < |ItemList()| && ItemList()[i] == it;
      assert names[i] == NameOf(k);
      SameNameSameItem(ItemList(), ItemMap()[NameOf(k)], it);
    }
  }

  /** `n` copies of `x`. */
  function Repeat<T>(x: T, n: nat): seq<T> {
    if n == 0 then [] else Repeat(x, n - 1) + [x]
  }

  lemma {:induction false} RepeatCount<T>(x: T, n: nat)
    ensures |Repeat(x, n)| == n
    ensures forall y :: multiset(Repeat(x, n))[y] == if y == x then n else 0
    ensures forall y :: y in Repeat(x, n) ==> y == x
    ensures n > 0 ==> x in Repeat(x, n)
  {
    if n > 0 {
      RepeatCount(x, n - 1);
      assert multiset(Repeat(x, n)) == multiset(Repeat(x, n - 1)) + multiset{x};
    }
  }

  /** The washer, dryer and extra-dry items, the TITAN variants or the
      regular ones. */
  function MachineKinds(f: FormState): seq<ItemKind> {
    if f.useTitan then SelectedMachines(f, TitanWash, TitanDry, ExtraTitanDry)
    else SelectedMachines(f, RegularWash, RegularDry, ExtraRegularDry)
  }

  function SelectedMachines(f: FormState, wash: ItemKind, dry: ItemKind, extraDry: ItemKind): seq<ItemKind> {
    var w: seq<ItemKind> := if "Wash" in f.services then [wash] else [];
    var d := if "Dry" in f.services then w + [dry] else w;
    if "Extra Dry" in f.extras then d + [extraDry] else d
  }

  function FoldKinds(f: FormState): seq<ItemKind> {
    if "Fold" in f.services then [Fold] else []
  }

  function HandWashKinds(f: FormState): seq<ItemKind> {
    if "Hand Wash" in f.extras then [HandWash] else []
  }

  /** The items of an order built from the form: washer, dryer and extra
      dry, fold, each detergent, each fabric conditioner, each bleach,
      hand wash. */
  function KindsFor(f: FormState): seq<ItemKind> {
    MachineKinds(f) + FoldKinds(f)
    + Repeat(ArielDetergent, f.nDetergent)
    + Repeat(DowneyFabcon, f.nFabcon)
    + Repeat(ZonroxBleach, f.nBleach)
    + HandWashKinds(f)
  }

  /** The catalogue items for a sequence of kinds, in order. */
  function Lookups(ks: seq<ItemKind>): seq<Item> {
    if ks == [] then [] else Lookups(ks[..|ks| - 1]) + [CatalogueItem(ks[|ks| - 1])]
  }

  lemma LookupsSnoc(ks: seq<ItemKind>, k: ItemKind)
    ensures Lookups(ks + [k]) == Lookups(ks) + [CatalogueItem(k)]
  {
    assert (ks + [k])[..|ks|] == ks;
  }

  /** The lookups are the catalogue item of each kind, position by
      position. */
  lemma {:induction false} LookupsIsColumn(ks: seq<ItemKind>)
    ensures Lookups(ks) == Column(ks, CatalogueItem)
  {
    if ks != [] {
      var init := ks[..|ks| - 1];
      LookupsIsColumn(init);
      assert ks == init + [ks[|ks| - 1]];
      ColumnSnoc(init, ks[|ks| - 1], CatalogueItem);
    }
  }

  lemma {:induction false} ColumnRepeat<T, U>(x: T, n: nat, f: T -> U)
    ensures Column(Repeat(x, n), f) == Repeat(f(x), n)
  {
    if n > 0 {
      ColumnRepeat(x, n - 1, f);
      ColumnSnoc(Repeat(x, n - 1), x, f);
    }
  }

  lemma LookupsRepeat(ks: seq<ItemKind>, k: ItemKind, n: nat)
    ensures Lookups(ks + Repeat(k, n)) == Lookups(ks) + Repeat(CatalogueItem(k), n)
  {
    LookupsIsColumn(ks + Repeat(k, n));
    LookupsIsColumn(ks);
    ColumnAppend(ks, Repeat(k, n), CatalogueItem);
    ColumnRepeat(k, n, CatalogueItem);
  }

  /** The looked-up items carry the names of their kinds, in order. */
  lemma {:induction false} LookupsNames(ks: seq<ItemKind>)
    ensures ItemNames(Lookups(ks)) == Column(ks, NameOf)
  {
    if ks != [] {
      var init := ks[..|ks| - 1];
      LookupsNames(init);
      assert ks == init + [ks[|ks| - 1]];
      ColumnSnoc(Lookups(init), CatalogueItem(ks[|ks| - 1]), ItemName);
      ColumnSnoc(init, ks[|ks| - 1], NameOf);
    }
  }

  /** Every looked-up item is a catalogue item. */
  lemma {:induction false} LookupsInCatalogue(ks: seq<ItemKind>)
    ensures forall it :: it in Lookups(ks) ==> it in ItemList()
  {
    if ks != [] {
      LookupsInCatalogue(ks[..|ks| - 1]);
      CatalogueItemListed(ks[|ks| - 1]);
    }
  }

  /** Appends `n` copies of `item`, one per turn of the loop. */
  method AppendCopies(items: seq<Item>, item: Item, n: nat) returns (r: seq<Item>)
    ensures r == items + Repeat(item, n)
  {
    r := items;
    for i := 0 to n
      invariant r == items + Repeat(item, i)
    {
      r := r + [item];
    }
  }

  /** The washer, dryer and extra-dry items of one variant, each looked
      up and appended when it was selected. */
  method AppendMachines(f: FormState, itemMap: map<string, Item>, wash: ItemKind, dry: ItemKind, extraDry: ItemKind)
    returns (items: seq<Item>)
    requires forall k :: NameOf(k) in itemMap && itemMap[NameOf(k)] == CatalogueItem(k)
    ensures items == Lookups(SelectedMachines(f, wash, dry, extraDry))
  {
    items := [];
    ghost var kinds: seq<ItemKind> := [];
    if "Wash" in f.services {
      LookupsSnoc(kinds, wash);
      items, kinds := items + [itemMap[NameOf(wash)]], kinds + [wash];
    }
    if "Dry" in f.services {
      LookupsSnoc(kinds, dry);
      items, kinds := items + [itemMap[NameOf(dry)]], kinds + [dry];
    }
    if "Extra Dry" in f.extras {
      LookupsSnoc(kinds, extraDry);
      items, kinds := items + [itemMap[NameOf(extraDry)]], kinds + [extraDry];
    }
    assert kinds == SelectedMachines(f, wash, dry, extraDry);
  }

  /** The items of the order the form describes, looked up in the
      catalogue dict by name: TITAN or regular washer, dryer and extra dry,
      then fold, the soaps and hand wash, each when it was selected. */
  method OrderItems(f: FormState) returns (items: seq<Item>)
    ensures items == Lookups(KindsFor(f))
  {
    CatalogueLookups();
    var itemMap := ItemMap();
    items := AppendServices(f, itemMap);
    items := AppendExtras(f, itemMap, items, MachineKinds(f) + FoldKinds(f));
  }

  /** The machine items of the selected variant, then fold. */
  method AppendServices(f: FormState, itemMap: map<string, Item>) returns (items: seq<Item>)
    requires forall k :: NameOf(k) in itemMap && itemMap[NameOf(k)] == CatalogueItem(k)
    ensures items == Lookups(MachineKinds(f) + FoldKinds(f))
  {
    if f.useTitan {
      items := AppendMachines(f, itemMap, TitanWash, TitanDry, ExtraTitanDry);
    } else {
      items := AppendMachines(f, itemMap, RegularWash, RegularDry, ExtraRegularDry);
    }
    if "Fold" in f.services {
      LookupsSnoc(MachineKinds(f), Fold);
      items := items + [itemMap[NameOf(Fold)]];
    } else {
      assert MachineKinds(f) + FoldKinds(f) == MachineKinds(f);
    }
  }

  /** After the items of `kinds`: each detergent, each fabric conditioner,
      each bleach, and hand wash when it was selected. */
  method AppendExtras(f: FormState, itemMap: map<string, Item>, items: seq<Item>, ghost kinds: seq<ItemKind>)
    returns (r: seq<Item>)
    requires forall k :: NameOf(k) in itemMap && itemMap[NameOf(k)] == CatalogueItem(k)
    requires items == Lookups(kinds)
    ensures r == Lookups(kinds + Repeat(ArielDetergent, f.nDetergent) + Repeat(DowneyFabcon, f.nFabcon)
      + Repeat(ZonroxBleach, f.nBleach) + HandWashKinds(f))
  {
    ghost var ks := kinds;
    LookupsRepeat(ks, ArielDetergent, f.nDetergent);
    r := AppendCopies(items, itemMap[NameOf(ArielDetergent)], f.nDetergent);
    ks := ks + Repeat(ArielDetergent, f.nDetergent);
    LookupsRepeat(ks, DowneyFabcon, f.nFabcon);
    r := AppendCopies(r, itemMap[NameOf(DowneyFabcon)], f.nFabcon);
    ks := ks + Repeat(DowneyFabcon, f.nFabcon);
    LookupsRepeat(ks, ZonroxBleach, f.nBleach);
    r := AppendCopies(r, itemMap[NameOf(ZonroxBleach)], f.nBleach);
    ks := ks + Repeat(ZonroxBleach, f.nBleach);
    if "Hand Wash" in f.extras {
      LookupsSnoc(ks, HandWash);
      r := r + [itemMap[NameOf(HandWash)]];
    } else {
      assert ks + HandWashKinds(f) == ks;
    }
  }

  /** An item is in the order built from the form exactly when its block
      holds it. */
  lemma KindsMembership(f: FormState)
    ensures forall k :: k in KindsFor(f) <==>
      k in MachineKinds(f) || k in FoldKinds(f) || k in HandWashKinds(f)
      || (k == ArielDetergent && f.nDetergent > 0)
      || (k == DowneyFabcon && f.nFabcon > 0)
      || (k == ZonroxBleach && f.nBleach > 0)
  {
    RepeatCount(ArielDetergent, f.nDetergent);
    RepeatCount(DowneyFabcon, f.nFabcon);
    RepeatCount(ZonroxBleach, f.nBleach);
  }

  /** With TITAN selected the machine items are the TITAN variants and no
      regular variant appears; without it, the reverse. */
  lemma TitanExclusive(f: FormState)
    ensures TitanWash in KindsFor(f) <==> f.useTitan && "Wash" in f.services
    ensures TitanDry in KindsFor(f) <==> f.useTitan && "Dry" in f.services
    ensures ExtraTitanDry in KindsFor(f) <==> f.useTitan && "Extra Dry" in f.extras
    ensures RegularWash in KindsFor(f) <==> !f.useTitan && "Wash" in f.services
    ensures RegularDry in KindsFor(f) <==> !f.useTitan && "Dry" in f.services
    ensures ExtraRegularDry in KindsFor(f) <==> !f.useTitan && "Extra Dry" in f.extras
  {
    KindsMembership(f);
    MachineMembership(f);
  }

  lemma MachineMembership(f: FormState)
    ensures TitanWash in MachineKinds(f) <==> f.useTitan && "Wash" in f.services
    ensures TitanDry in MachineKinds(f) <==> f.useTitan && "Dry" in f.services
    ensures ExtraTitanDry in MachineKinds(f) <==> f.useTitan && "Extra Dry" in f.extras
    ensures RegularWash in MachineKinds(f) <==> !f.useTitan && "Wash" in f.services
    ensures RegularDry in MachineKinds(f) <==> !f.useTitan && "Dry" in f.services
    ensures ExtraRegularDry in MachineKinds(f) <==> !f.useTitan && "Extra Dry" in f.extras
  {
    var (w, d, x) := if f.useTitan then (TitanWash, TitanDry, ExtraTitanDry)
      else (RegularWash, RegularDry, ExtraRegularDry);
    SelectedMachinesMembership(f, w, d, x, TitanWash);
    SelectedMachinesMembership(f, w, d, x, TitanDry);
    SelectedMachinesMembership(f, w, d, x, ExtraTitanDry);
    SelectedMachinesMembership(f, w, d, x, RegularWash);
    SelectedMachinesMembership(f, w, d, x, RegularDry);
    SelectedMachinesMembership(f, w, d, x, ExtraRegularDry);
  }

  lemma SelectedMachinesMembership(f: FormState, wash: ItemKind, dry: ItemKind, extraDry: ItemKind, k: ItemKind)
    ensures k in SelectedMachines(f, wash, dry, extraDry) <==>
      (k == wash && "Wash" in f.services) || (k == dry && "Dry" in f.services)
      || (k == extraDry && "Extra Dry" in f.extras)
  {
  }

  /** The machine, fold and hand-wash items hold no soap. */
  lemma NoSoapInServices(f: FormState)
    ensures ArielDetergent !in MachineKinds(f) + FoldKinds(f) && ArielDetergent !in HandWashKinds(f)
    ensures DowneyFabcon !in MachineKinds(f) + FoldKinds(f) && DowneyFabcon !in HandWashKinds(f)
    ensures ZonroxBleach !in MachineKinds(f) + FoldKinds(f) && ZonroxBleach !in HandWashKinds(f)
  {
  }

  /** The order holds exactly the requested number of each soap, whatever
      else was selected. */
  lemma SoapCounts(f: FormState)
    ensures multiset(KindsFor(f))[ArielDetergent] == f.nDetergent
    ensures multiset(KindsFor(f))[DowneyFabcon] == f.nFabcon
    ensures multiset(KindsFor(f))[ZonroxBleach] == f.nBleach
  {
    NoSoapInServices(f);
    var p := MachineKinds(f) + FoldKinds(f);
    var h := HandWashKinds(f);
    var m := multiset(p) + multiset(Repeat(ArielDetergent, f.nDetergent))
      + multiset(Repeat(DowneyFabcon, f.nFabcon)) + multiset(Repeat(ZonroxBleach, f.nBleach)) + multiset(h);
    assert multiset(KindsFor(f)) == m;
    SoapCount(p, h, m, f, ArielDetergent, f.nDetergent);
    SoapCount(p, h, m, f, DowneyFabcon, f.nFabcon);
    SoapCount(p, h, m, f, ZonroxBleach, f.nBleach);
  }

  /** One soap's count in the order: its own block, none elsewhere. */
  lemma SoapCount(p: seq<ItemKind>, h: seq<ItemKind>, m: multiset<ItemKind>, f: FormState, x: ItemKind, n: nat)
    requires x !in p && x !in h
    requires (x == ArielDetergent && n == f.nDetergent) || (x == DowneyFabcon && n == f.nFabcon)
      || (x == ZonroxBleach && n == f.nBleach)
    requires m == multiset(p) + multiset(Repeat(ArielDetergent, f.nDetergent))
      + multiset(Repeat(DowneyFabcon, f.nFabcon)) + multiset(Repeat(ZonroxBleach, f.nBleach)) + multiset(h)
    ensures m[x] == n
  {
    RepeatCountAt(ArielDetergent, f.nDetergent, x);
    RepeatCountAt(DowneyFabcon, f.nFabcon, x);
    RepeatCountAt(ZonroxBleach, f.nBleach, x);
    assert multiset(p)[x] == 0 && multiset(h)[x] == 0;
  }

  lemma RepeatCountAt<T>(x: T, n: nat, y: T)
    ensures multiset(Repeat(x, n))[y] == if y == x then n else 0
  {
    RepeatCount(x, n);
  }

  /** The order holds a fold exactly when fold was selected and a hand
      wash exactly when hand wash was selected. */
  lemma FoldAndHandWash(f: FormState)
    ensures Fold in KindsFor(f) <==> "Fold" in f.services
    ensures HandWash in KindsFor(f) <==> "Hand Wash" in f.extras
  {
    KindsMembership(f);
  }

  /** The catalogue names of the order's items occur as often as the items
      themselves. */
  lemma {:induction false} NameMultiplicity(kinds: seq<ItemKind>, k: ItemKind)
    ensures multiset(Column(kinds, NameOf))[NameOf(k)] == multiset(kinds)[k]
  {
    if kinds != [] {
      var init := kinds[..|kinds| - 1];
      var last := kinds[|kinds| - 1];
      NameMultiplicity(init, k);
      assert kinds == init + [last];
      ColumnSnoc(init, last, NameOf);
      NameOfInjective(last, k);
    }
  }

  /** The quantities of an order built from the form: each soap's name
      occurs among the order's item names exactly as many times as the
      form asked for. */
  lemma OrderSoapQuantities(f: FormState)
    ensures multiset(ItemNames(Lookups(KindsFor(f))))[NameOf(ArielDetergent)] == f.nDetergent
    ensures multiset(ItemNames(Lookups(KindsFor(f))))[NameOf(DowneyFabcon)] == f.nFabcon
    ensures multiset(ItemNames(Lookups(KindsFor(f))))[NameOf(ZonroxBleach)] == f.nBleach
  {
    LookupsNames(KindsFor(f));
    SoapCounts(f);
    NameMultiplicity(KindsFor(f), ArielDetergent);
    NameMultiplicity(KindsFor(f), DowneyFabcon);
    NameMultiplicity(KindsFor(f), ZonroxBleach);
  }

  /** The number of items is the number of selected services among wash,
      dry and fold, plus the number of selected extras, plus the soaps. */
  lemma ItemCount(f: FormState)
    ensures |KindsFor(f)| ==
      |f.services * {"Wash", "Dry", "Fold"}| + |f.extras * {"Extra Dry", "Hand Wash"}|
      + f.nDetergent + f.nFabcon + f.nBleach
  {
    var w := if "Wash" in f.services then 1 else 0;
    var d := if "Dry" in f.services then 1 else 0;
    var x := if "Extra Dry" in f.extras then 1 else 0;
    var fo := if "Fold" in f.services then 1 else 0;
    var h := if "Hand Wash" in f.extras then 1 else 0;
    MachineCount(f);
    assert |MachineKinds(f)| == w + d + x;
    assert |FoldKinds(f)| == fo && |HandWashKinds(f)| == h;
    RepeatCount(ArielDetergent, f.nDetergent);
    RepeatCount(DowneyFabcon, f.nFabcon);
    RepeatCount(ZonroxBleach, f.nBleach);
    assert |KindsFor(f)| == w + d + x + fo + f.nDetergent + f.nFabcon + f.nBleach + h;
    SelectedCount(f.services, "Wash", "Dry", "Fold");
    SelectedPairCount(f.extras, "Extra Dry", "Hand Wash");
  }

  lemma MachineCount(f: FormState)
    ensures |MachineKinds(f)| ==
      (if "Wash" in f.services then 1 else 0) + (if "Dry" in f.services then 1 else 0)
      + (if "Extra Dry" in f.extras then 1 else 0)
  {
  }

  lemma SelectedCount(s: set<string>, a: string, b: string, c: string)
    requires a != b && b != c && a != c
    ensures |s * {a, b, c}| == (if a in s then 1 else 0) + (if b in s then 1 else 0) + (if c in s then 1 else 0)
  {
    SelectedPairCount(s, a, b);
    var ab := s * {a, b};
    var sc := s * {c};
    assert s * {a, b, c} == ab + sc;
    assert ab !! sc;
    SelectedOne(s, c);
  }

  lemma SelectedPairCount(s: set<string>, a: string, b: string)
    requires a != b
    ensures |s * {a, b}| == (if a in s then 1 else 0) + (if b in s then 1 else 0)
  {
    var sa := s * {a};
    var sb := s * {b};
    assert s * {a, b} == sa + sb;
    assert sa !! sb;
    SelectedOne(s, a);
    SelectedOne(s, b);
  }

  lemma SelectedOne(s: set<string>, a: string)
    ensures |s * {a}| == if a in s then 1 else 0
  {
    if a in s {
      assert s * {a} == {a};
    } else {
      assert s * {a} == {};
    }
  }

  /** The position of an item in the fixed order of the list. */
  function Rank(k: ItemKind): nat {
    match k
    case TitanWash => 0
    case RegularWash => 0
    case TitanDry => 1
    case RegularDry => 1
    case ExtraTitanDry => 2
    case ExtraRegularDry => 2
    case Fold => 3
    case ArielDetergent => 4
    case DowneyFabcon => 5
    case ZonroxBleach => 6
    case HandWash => 7
  }

  predicate RankSorted(xs: seq<ItemKind>) {
    forall i, j :: 0 <= i < j < |xs| ==> Rank(xs[i]) <= Rank(xs[j])
  }

  /** Two sorted runs, the first ranked at most `m` and the second at
      least `m`, make a sorted run. */
  lemma RankSortedAppend(a: seq<ItemKind>, b: seq<ItemKind>, m: nat)
    requires RankSorted(a) && RankSorted(b)
    requires forall x :: x in a ==> Rank(x) <= m
    requires forall y :: y in b ==> m <= Rank(y)
    ensures RankSorted(a + b)
  {
    forall i, j | 0 <= i < j < |a + b| ensures Rank((a + b)[i]) <= Rank((a + b)[j]) {
      if j < |a| {
      } else if i >= |a| {
        assert (a + b)[i] == b[i - |a|] && (a + b)[j] == b[j - |a|];
      } else {
        assert (a + b)[i] in a && (a + b)[j] in b;
      }
    }
  }

  lemma RepeatSorted(x: ItemKind, n: nat)
    ensures RankSorted(Repeat(x, n))
  {
    RepeatCount(x, n);
    forall i, j | 0 <= i < j < |Repeat(x, n)| ensures Rank(Repeat(x, n)[i]) <= Rank(Repeat(x, n)[j]) {
      assert Repeat(x, n)[i] in Repeat(x, n) && Repeat(x, n)[j] in Repeat(x, n);
    }
  }

  /** Items appear in a fixed order: washer, dryer, extra dry, fold,
      detergents, fabric conditioners, bleaches, hand wash. */
  lemma ItemsInFixedOrder(f: FormState)
    ensures RankSorted(KindsFor(f))
  {
    var p1 := MachineKinds(f) + FoldKinds(f);
    if f.useTitan {
      SelectedMachinesSorted(f, TitanWash, TitanDry, ExtraTitanDry);
    } else {
      SelectedMachinesSorted(f, RegularWash, RegularDry, ExtraRegularDry);
    }
    RankSortedAppend(MachineKinds(f), FoldKinds(f), 3);
    var p2 := p1 + Repeat(ArielDetergent, f.nDetergent);
    SortedBlock(p1, ArielDetergent, f.nDetergent);
    var p3 := p2 + Repeat(DowneyFabcon, f.nFabcon);
    SortedBlock(p2, DowneyFabcon, f.nFabcon);
    SortedBlock(p3, ZonroxBleach, f.nBleach);
    var p4 := p3 + Repeat(ZonroxBleach, f.nBleach);
    RankSortedAppend(p4, HandWashKinds(f), 7);
  }

  /** The machines come washer, dryer, extra dry, all ranked below fold. */
  lemma SelectedMachinesSorted(f: FormState, wash: ItemKind, dry: ItemKind, extraDry: ItemKind)
    requires Rank(wash) == 0 && Rank(dry) == 1 && Rank(extraDry) == 2
    ensures RankSorted(SelectedMachines(f, wash, dry, extraDry))
    ensures forall y :: y in SelectedMachines(f, wash, dry, extraDry) ==> Rank(y) <= 2
  {
  }

  /** A sorted run ranked at most `Rank(x)`, followed by copies of `x`. */
  lemma SortedBlock(a: seq<ItemKind>, x: ItemKind, n: nat)
    requires RankSorted(a)
    requires forall y :: y in a ==> Rank(y) <= Rank(x)
    ensures RankSorted(a + Repeat(x, n))
    ensures forall y :: y in a + Repeat(x, n) ==> Rank(y) <= Rank(x)
  {
    RepeatCount(x, n);
    RepeatSorted(x, n);
    RankSortedAppend(a, Repeat(x, n), Rank(x));
  }

  /** The first client with the given name (the page takes row 0 of the
      filtered clients table, which fails when no row matches). */
  function FirstNamed(clients: seq<Customer>, name: string): (r: Option<Customer>)
    ensures r.None? <==> forall c :: c in clients ==> c.name != name
    ensures r.Some? ==> exists k :: (0 <= k < |clients| && clients[k] == r.value && r.value.name == name
      && forall j :: 0 <= j < k ==> clients[j].name != name)
  {
    match FirstNamedFrom(clients, name, 0)
    case None => None
    case Some(k) => Some(clients[k])
  }

  /** The first position from `i` on that holds a client of that name. */
  function FirstNamedFrom(clients: seq<Customer>, name: string, i: nat): (r: Option<nat>)
    requires i <= |clients|
    ensures r.Some? ==> (i <= r.value < |clients| && clients[r.value].name == name
      && forall j :: i <= j < r.value ==> clients[j].name != name)
    ensures r.None? ==> forall j :: i <= j < |clients| ==> clients[j].name != name
    decreases |clients| - i
  {
    if i == |clients| then None
    else if clients[i].name == name then Some(i)
    else FirstNamedFrom(clients, name, i + 1)
  }

  /** The orders taken in this session. */
  class OrderSession {
    var orders: seq<Order>

    constructor()
      ensures orders == []
    {
      orders := [];
    }

    /** Submitting the form: build the items, find the customer, append
        the order. When no client has the selected name the submission
        fails and the orders are left as they were. */
    method ProcessOrder(f: FormState, clients: seq<Customer>) returns (ok: bool)
      modifies this
      ensures ok <==> exists c :: c in clients && c.name == f.customerName
      ensures !ok ==> orders == old(orders)
      ensures ok ==> |orders| == |old(orders)| + 1 && orders[..|old(orders)|] == old(orders)
      ensures ok ==> orders[|old(orders)|].customer == FirstNamed(clients, f.customerName).value
      ensures ok ==> orders[|old(orders)|].items == Lookups(KindsFor(f))
      ensures ok ==> ItemNames(orders[|old(orders)|].items) == Column(KindsFor(f), NameOf)
      ensures ok ==> forall it :: it in orders[|old(orders)|].items ==> it in ItemList()
    {
      var items := OrderItems(f);
      LookupsNames(KindsFor(f));
      LookupsInCatalogue(KindsFor(f));
      var customer := FirstNamed(clients, f.customerName);
      if customer.None? {
        return false;
      }
      orders := orders + [Order(customer.value, items)];
      ok := true;
    }
  }
}
