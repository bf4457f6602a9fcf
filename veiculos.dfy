/**
 * The vehicle page (app/veiculos/page.tsx): the three-stage list filter,
 * the brand list of the brand filter, the record the form submits, the
 * shortened ID column and the status badge colours.
 */
module Veiculos {
  import opened Options
  import opened JsValues
  import opened Text
  import opened Seqs
  import Badges

  /** A vehicle as the API lists it (the fields the pages read). */
  datatype Vehicle = Vehicle(
    id: string,
    placa: string,
    marca: string,
    modelo: string,
    status: string,
    diariaCents: int)

  /** `vehicles.find(v => v.id === id)`: the first vehicle with that ID. */
  function FindVehicle(vehicles: seq<Vehicle>, id: string): (r: Option<Vehicle>)
    ensures r.None? <==> forall i :: 0 <= i < |vehicles| ==> vehicles[i].id != id
    ensures r.Some? ==> r.value.id == id
    ensures r.Some? ==> exists i :: 0 <= i < |vehicles| && vehicles[i] == r.value &&
                                    forall j :: 0 <= j < i ==> vehicles[j].id != id
    decreases |vehicles|
  {
    if |vehicles| == 0 then None
    else if vehicles[0].id == id then Some(vehicles[0])
    else
      var r := FindVehicle(vehicles[1..], id);
      if r.Some? then
        var i :| 0 <= i < |vehicles[1..]| && vehicles[1..][i] == r.value &&
                 forall j :: 0 <= j < i ==> vehicles[1..][j].id != id;
        assert vehicles[i + 1] == r.value;
        r
      else r
  }

  /** The search stage's test; `search` is the already lower-cased term. */
  predicate MatchesSearch(v: Vehicle, search: string) {
    Contains(Lower(v.placa), search) || Contains(Lower(v.marca), search) || Contains(Lower(v.modelo), search)
  }

  /** The search stage passes a vehicle: no term, or a match on the lower-cased term. */
  predicate SearchOk(v: Vehicle, searchTerm: string) {
    searchTerm != "" ==> MatchesSearch(v, Lower(searchTerm))
  }

  /** The status stage passes a vehicle: no status filter, or that status. */
  predicate StatusOk(v: Vehicle, statusFilter: string) {
    statusFilter != "" ==> v.status == statusFilter
  }

  /** The brand stage passes a vehicle: no brand filter, or exactly that brand. */
  predicate MarcaOk(v: Vehicle, marcaFilter: string) {
    marcaFilter != "" ==> v.marca == marcaFilter
  }

  /** The search is case-insensitive: two terms that lower-case alike pass the same vehicles. */
  lemma SearchCaseInsensitive(v: Vehicle, s: string, t: string, statusFilter: string, marcaFilter: string)
    requires Lower(s) == Lower(t)
    ensures SearchOk(v, s) == SearchOk(v, t)
    ensures Shown(v, s, statusFilter, marcaFilter) == Shown(v, t, statusFilter, marcaFilter)
  {
    assert |s| == |Lower(s)| == |Lower(t)| == |t|;
  }

  /** A vehicle passes every active filter (an empty filter is inactive). */
  predicate Shown(v: Vehicle, searchTerm: string, statusFilter: string, marcaFilter: string) {
    SearchOk(v, searchTerm) && StatusOk(v, statusFilter) && MarcaOk(v, marcaFilter)
  }

  /** The test of filter stage `k`: 1 the search, 2 the status, 3 the brand. */
  predicate StageTest(v: Vehicle, k: nat, searchTerm: string, statusFilter: string, marcaFilter: string) {
    if k == 1 then SearchOk(v, searchTerm)
    else if k == 2 then StatusOk(v, statusFilter)
    else MarcaOk(v, marcaFilter)
  }

  /** A vehicle passes the first `k` filter stages. */
  predicate PassesStages(v: Vehicle, k: nat, searchTerm: string, statusFilter: string, marcaFilter: string) {
    && (k >= 1 ==> SearchOk(v, searchTerm))
    && (k >= 2 ==> StatusOk(v, statusFilter))
    && (k >= 3 ==> MarcaOk(v, marcaFilter))
  }

  /** `filtered` is `veiculos` narrowed by exactly the first `k` stages, in order and with multiplicity. */
  ghost predicate NarrowedBy(filtered: seq<Vehicle>, veiculos: seq<Vehicle>, k: nat,
                             searchTerm: string, statusFilter: string, marcaFilter: string)
  {
    && IsSubseq(filtered, veiculos)
    && forall v :: multiset(filtered)[v] ==
                   if PassesStages(v, k, searchTerm, statusFilter, marcaFilter) then multiset(veiculos)[v] else 0
  }

  /** Applying stage `k` as a filter to the list narrowed by the stages before it. */
  lemma NarrowStage(before: seq<Vehicle>, veiculos: seq<Vehicle>, p: Vehicle -> bool, k: nat,
                    searchTerm: string, statusFilter: string, marcaFilter: string)
    requires 1 <= k <= 3
    requires NarrowedBy(before, veiculos, k - 1, searchTerm, statusFilter, marcaFilter)
    requires forall v :: p(v) == StageTest(v, k, searchTerm, statusFilter, marcaFilter)
    ensures NarrowedBy(Filter(before, p), veiculos, k, searchTerm, statusFilter, marcaFilter)
  {
    FilterIsSubseq(before, p);
    SubseqTrans(Filter(before, p), before, veiculos);
    forall v ensures multiset(Filter(before, p))[v] ==
                     if PassesStages(v, k, searchTerm, statusFilter, marcaFilter) then multiset(veiculos)[v] else 0
    {
      FilterCount(before, p, v);
    }
  }

  /** Skipping stage `k` when every vehicle passes its test (its filter is empty). */
  lemma SkipStage(filtered: seq<Vehicle>, veiculos: seq<Vehicle>, k: nat,
                  searchTerm: string, statusFilter: string, marcaFilter: string)
    requires 1 <= k <= 3
    requires NarrowedBy(filtered, veiculos, k - 1, searchTerm, statusFilter, marcaFilter)
    requires forall v :: StageTest(v, k, searchTerm, statusFilter, marcaFilter)
    ensures NarrowedBy(filtered, veiculos, k, searchTerm, statusFilter, marcaFilter)
  {
    forall v ensures PassesStages(v, k, searchTerm, statusFilter, marcaFilter)
                     == PassesStages(v, k - 1, searchTerm, statusFilter, marcaFilter)
    {
      assert StageTest(v, k, searchTerm, statusFilter, marcaFilter);
    }
  }

  /**
   * The filter effect: start from the full list and narrow it by the
   * search term, then the status, then the brand, each only when set.
   */
  method FilterVehicles(veiculos: seq<Vehicle>, searchTerm: string, statusFilter: string, marcaFilter: string)
    returns (filtered: seq<Vehicle>)
    ensures IsSubseq(filtered, veiculos)
    ensures forall v :: multiset(filtered)[v] ==
                       if Shown(v, searchTerm, statusFilter, marcaFilter) then multiset(veiculos)[v] else 0
    ensures forall v :: v in filtered ==> Shown(v, searchTerm, statusFilter, marcaFilter)
    ensures forall v :: v in veiculos && Shown(v, searchTerm, statusFilter, marcaFilter) ==> v in filtered
    ensures searchTerm == "" && statusFilter == "" && marcaFilter == "" ==> filtered == veiculos
  {
    filtered := veiculos;
    SubseqRefl(veiculos);
    assert NarrowedBy(filtered, veiculos, 0, searchTerm, statusFilter, marcaFilter);

    if searchTerm != "" {
      var search := Lower(searchTerm);
      var p := (v: Vehicle) => MatchesSearch(v, search);
      NarrowStage(filtered, veiculos, p, 1, searchTerm, statusFilter, marcaFilter);
      filtered := Filter(filtered, p);
    } else {
      SkipStage(filtered, veiculos, 1, searchTerm, statusFilter, marcaFilter);
    }

    if statusFilter != "" {
      var p := (v: Vehicle) => v.status == statusFilter;
      NarrowStage(filtered, veiculos, p, 2, searchTerm, statusFilter, marcaFilter);
      filtered := Filter(filtered, p);
    } else {
      SkipStage(filtered, veiculos, 2, searchTerm, statusFilter, marcaFilter);
    }

    if marcaFilter != "" {
      var p := (v: Vehicle) => v.marca == marcaFilter;
      NarrowStage(filtered, veiculos, p, 3, searchTerm, statusFilter, marcaFilter);
      filtered := Filter(filtered, p);
    } else {
      SkipStage(filtered, veiculos, 3, searchTerm, statusFilter, marcaFilter);
    }

    forall v | v in filtered ensures Shown(v, searchTerm, statusFilter, marcaFilter) {
      assert multiset(filtered)[v] > 0;
    }
    forall v | v in veiculos && Shown(v, searchTerm, statusFilter, marcaFilter) ensures v in filtered {
      assert multiset(veiculos)[v] > 0;
    }
  }

  /** The brand of each vehicle, in list order (`veiculos.map(v => v.marca)`). */
  function Brands(veiculos: seq<Vehicle>): (r: seq<string>)
    ensures |r| == |veiculos| && forall i :: 0 <= i < |r| ==> r[i] == veiculos[i].marca
  {
    seq(|veiculos|, i requires 0 <= i < |veiculos| => veiculos[i].marca)
  }

  /** `uniqueBrands`: the options of the brand filter. */
  function UniqueBrands(veiculos: seq<Vehicle>): (r: seq<string>)
    ensures Distinct(r)
    ensures forall i :: 0 <= i < |r| ==> r[i] in Brands(veiculos)
    ensures forall b :: b in r <==> exists i :: 0 <= i < |veiculos| && veiculos[i].marca == b
    ensures forall i, j :: 0 <= i < j < |r| ==>
      FirstIndex(Brands(veiculos), r[i]) < FirstIndex(Brands(veiculos), r[j])
  {
    var brands := Brands(veiculos);
    DedupFirstOccurrenceOrder(brands);
    var r := Dedup(brands);
    assert forall b :: b in r ==> exists i :: 0 <= i < |veiculos| && veiculos[i].marca == b by {
      forall b | b in r ensures exists i :: 0 <= i < |veiculos| && veiculos[i].marca == b {
        var i :| 0 <= i < |brands| && brands[i] == b;
      }
    }
    r
  }

  /** The record the vehicle form submits. */
  datatype VehicleSubmit = VehicleSubmit(
    placa: Value,
    marca: Value,
    modelo: Value,
    ano: Value,
    categoriaId: Value,
    diaria: Value,
    imageUrl: Value,
    latitude: Value,
    longitude: Value,
    cor: Value,
    combustivel: Value,
    portas: Value,
    cambio: Value,
    quilometragem: Value)

  /** `submitData` in `handleSubmit`. */
  function VehicleSubmitData(data: Record, parsers: NumberParsers): (r: VehicleSubmit)
    // text fields are copied as they are
    ensures r.placa == Get(data, "placa") && r.marca == Get(data, "marca") && r.modelo == Get(data, "modelo")
    ensures r.categoriaId == Get(data, "categoria_id") && r.cor == Get(data, "cor")
    ensures r.combustivel == Get(data, "combustivel") && r.cambio == Get(data, "cambio")
    // numeric fields are the parse of what was typed
    ensures r.ano == Num(parsers.parseInt(Get(data, "ano")))
    ensures r.portas == Num(parsers.parseInt(Get(data, "portas")))
    ensures r.diaria == Num(parsers.parseFloat(Get(data, "diaria")))
    ensures r.quilometragem == Num(parsers.parseFloat(Get(data, "quilometragem")))
    // an empty image URL is sent as '' and empty coordinates as null
    ensures !Truthy(Get(data, "image_url")) ==> r.imageUrl == Str("")
    ensures Truthy(Get(data, "image_url")) ==> r.imageUrl == Get(data, "image_url")
    ensures r.latitude == Null <==> !Truthy(Get(data, "latitude"))
    ensures r.longitude == Null <==> !Truthy(Get(data, "longitude"))
    ensures Truthy(Get(data, "latitude")) ==> r.latitude == Num(parsers.parseFloat(Get(data, "latitude")))
    ensures Truthy(Get(data, "longitude")) ==> r.longitude == Num(parsers.parseFloat(Get(data, "longitude")))
  {
    VehicleSubmit(
      placa := Get(data, "placa"),
      marca := Get(data, "marca"),
      modelo := Get(data, "modelo"),
      ano := Num(parsers.parseInt(Get(data, "ano"))),
      categoriaId := Get(data, "categoria_id"),
      diaria := Num(parsers.parseFloat(Get(data, "diaria"))),
      imageUrl := Or(Get(data, "image_url"), Str("")),
      latitude := OptionalFloat(Get(data, "latitude"), parsers),
      longitude := OptionalFloat(Get(data, "longitude"), parsers),
      cor := Get(data, "cor"),
      combustivel := Get(data, "combustivel"),
      portas := Num(parsers.parseInt(Get(data, "portas"))),
      cambio := Get(data, "cambio"),
      quilometragem := Num(parsers.parseFloat(Get(data, "quilometragem"))))
  }

  /** The six vehicle statuses the status selector offers. */
  const VehicleStatuses: seq<string> := ["DISPONIVEL", "ALUGADO", "RESERVADO", "MANUTENCAO", "FORA_AREA", "EM_USO"]

  /** `getStatusColor` of the vehicle page. */
  function StatusColor(status: string): (c: string)
    ensures status !in VehicleStatuses ==> c == Badges.Gray
  {
    match status
    case "DISPONIVEL" => Badges.Green
    case "ALUGADO" => Badges.Blue
    case "RESERVADO" => Badges.Purple
    case "MANUTENCAO" => Badges.Yellow
    case "FORA_AREA" => Badges.Red
    case "EM_USO" => Badges.Orange
    case _ => Badges.Gray
  }

  /** The six statuses get six different colours, none of them the gray of an unknown status. */
  lemma StatusColorsDistinct()
    ensures forall i, j :: 0 <= i < j < |VehicleStatuses| ==>
      StatusColor(VehicleStatuses[i]) != StatusColor(VehicleStatuses[j])
    ensures forall i :: 0 <= i < |VehicleStatuses| ==> StatusColor(VehicleStatuses[i]) != Badges.Gray
  {
  }
}
