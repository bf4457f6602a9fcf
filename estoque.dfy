/**
 * The stock page (app/estoque/page.tsx): the stock list gathered store by
 * store, the record the form submits, the status badge colours, and how its
 * form modal behaves after a successful save.
 */
module Estoque {
  import opened Options
  import opened JsValues
  import Veiculos
  import CrudModal
  import Badges

  /** A store as the API lists it. */
  datatype Store = Store(id: string, nome: string)

  /** A stock line as the API lists it. */
  datatype StockItem = StockItem(id: string, veiculoId: string, lojaId: string, quantidade: int, status: string)

  /** `lojasResult.data || []`. */
  function StoresOf(lojasData: Option<seq<Store>>): seq<Store> {
    if lojasData.Some? then lojasData.value else []
  }

  /** What one store's response adds: its `data`, or nothing when there is none. */
  function Contribution(res: Option<seq<StockItem>>): seq<StockItem> {
    if res.Some? then res.value else []
  }

  /** The per-store lists, concatenated in store order. */
  function Aggregate(responses: seq<Option<seq<StockItem>>>): seq<StockItem>
    decreases |responses|
  {
    if |responses| == 0 then []
    else Aggregate(responses[..|responses| - 1]) + Contribution(responses[|responses| - 1])
  }

  /**
   * The loop of `loadData`: for each store, in order, ask for its stock
   * (`responses[i]` is the `data` of the i-th answer) and push what came back.
   */
  method LoadStock(lojasData: Option<seq<Store>>, responses: seq<Option<seq<StockItem>>>)
    returns (allEstoque: seq<StockItem>)
    requires |responses| == |StoresOf(lojasData)|
    ensures allEstoque == Aggregate(responses)
  {
    var lojas := StoresOf(lojasData);
    allEstoque := [];
    var i := 0;
    while i < |lojas|
      invariant 0 <= i <= |lojas|
      invariant allEstoque == Aggregate(responses[..i])
    {
      var res := responses[i];
      if res.Some? {
        allEstoque := allEstoque + res.value;
      }
      assert responses[..i + 1][..i] == responses[..i];
      i := i + 1;
    }
    assert responses[..i] == responses;
  }

  /** The aggregate of two runs of stores is the first run's aggregate followed by the second's. */
  lemma {:induction false} AggregateAppend(xs: seq<Option<seq<StockItem>>>, ys: seq<Option<seq<StockItem>>>)
    ensures Aggregate(xs + ys) == Aggregate(xs) + Aggregate(ys)
    decreases |ys|
  {
    if |ys| == 0 {
      assert xs + ys == xs;
    } else {
      var init := ys[..|ys| - 1];
      AggregateAppend(xs, init);
      assert (xs + ys)[..|xs + ys| - 1] == xs + init;
    }
  }

  /** A store's list sits in the aggregate right after the lists of the stores before it. */
  lemma StoreListPosition(before: seq<Option<seq<StockItem>>>, res: Option<seq<StockItem>>,
                          after: seq<Option<seq<StockItem>>>)
    ensures Aggregate(before + [res] + after) == Aggregate(before) + Contribution(res) + Aggregate(after)
  {
    AggregateAppend(before + [res], after);
    AggregateAppend(before, [res]);
    AggregateSingle(res);
  }

  lemma AggregateSingle(res: Option<seq<StockItem>>)
    ensures Aggregate([res]) == Contribution(res)
  {
    assert [res][..0] == [];
  }

  /** A stock line is listed exactly when some store's response holds it. */
  lemma {:induction false} AggregateMembership(responses: seq<Option<seq<StockItem>>>, x: StockItem)
    ensures x in Aggregate(responses) <==>
              exists i :: 0 <= i < |responses| && x in Contribution(responses[i])
    decreases |responses|
  {
    if |responses| > 0 {
      var init := responses[..|responses| - 1];
      AggregateMembership(init, x);
      if x in Aggregate(responses) && x !in Contribution(responses[|responses| - 1]) {
        var i :| 0 <= i < |init| && x in Contribution(init[i]);
        assert responses[i] == init[i];
      }
      if exists i :: 0 <= i < |responses| && x in Contribution(responses[i]) {
        var i :| 0 <= i < |responses| && x in Contribution(responses[i]);
        if i < |init| {
          assert init[i] == responses[i];
        }
      }
    }
  }

  /** The number of lines listed is the sum of what the stores returned. */
  function TotalLines(responses: seq<Option<seq<StockItem>>>): nat
    decreases |responses|
  {
    if |responses| == 0 then 0
    else TotalLines(responses[..|responses| - 1]) + |Contribution(responses[|responses| - 1])|
  }

  lemma {:induction false} AggregateLength(responses: seq<Option<seq<StockItem>>>)
    ensures |Aggregate(responses)| == TotalLines(responses)
    decreases |responses|
  {
    if |responses| > 0 {
      AggregateLength(responses[..|responses| - 1]);
    }
  }

  /** Stores whose responses carry no data contribute nothing; no stores, no stock. */
  lemma {:induction false} NoDataNoStock(responses: seq<Option<seq<StockItem>>>)
    requires forall i :: 0 <= i < |responses| ==> responses[i].None?
    ensures Aggregate(responses) == []
    decreases |responses|
  {
    if |responses| > 0 {
      NoDataNoStock(responses[..|responses| - 1]);
    }
  }

  /** The store cell: the name of the first store with the line's `loja_id`, or '-' when none is listed. */
  function StoreCell(lojas: seq<Store>, lojaId: string): (cell: string)
    ensures (forall i :: 0 <= i < |lojas| ==> lojas[i].id != lojaId) ==> cell == "-"
    ensures forall i :: 0 <= i < |lojas| && lojas[i].id == lojaId && (forall j :: 0 <= j < i ==> lojas[j].id != lojaId)
              ==> cell == lojas[i].nome
    decreases |lojas|
  {
    if |lojas| == 0 then "-"
    else if lojas[0].id == lojaId then lojas[0].nome
    else
      assert forall i :: 1 <= i < |lojas| ==> lojas[1..][i - 1] == lojas[i];
      StoreCell(lojas[1..], lojaId)
  }

  /** The record the stock form submits. */
  datatype StockSubmit = StockSubmit(veiculoId: Value, lojaId: Value, quantidade: Value, status: Value)

  /** `submitData` in `handleSubmit`. */
  function StockSubmitData(data: Record, parsers: NumberParsers): (r: StockSubmit)
    ensures r.veiculoId == Get(data, "veiculo_id") && r.lojaId == Get(data, "loja_id")
    ensures r.quantidade == Num(parsers.parseInt(Get(data, "quantidade")))
    ensures Truthy(r.status)
    ensures !Truthy(Get(data, "status")) ==> r.status == Str("DISPONIVEL")
    ensures Truthy(Get(data, "status")) ==> r.status == Get(data, "status")
  {
    StockSubmit(
      veiculoId := Get(data, "veiculo_id"),
      lojaId := Get(data, "loja_id"),
      quantidade := Num(parsers.parseInt(Get(data, "quantidade"))),
      status := Or(Get(data, "status"), Str("DISPONIVEL")))
  }

  /** `getStatusColor` of the stock page: the same palette as the vehicle page. */
  function StatusColor(status: string): (c: string)
    ensures c == Veiculos.StatusColor(status)
  {
    match status
    case "DISPONIVEL" => Badges.Green
    case "ALUGADO" => Badges.Blue
    case "RESERVADO" => Badges.Purple
    case "MANUTENCAO" => Badges.Yellow
    case "FORA_AREA" => Badges.Red
    case "EM_USO" => Badges.Orange
    case _ => Badges.Gray
  }

  /** The six statuses get six different colours; anything else is gray. */
  lemma StatusColorsDistinct(status: string)
    ensures forall i, j :: 0 <= i < j < |Veiculos.VehicleStatuses| ==>
      StatusColor(Veiculos.VehicleStatuses[i]) != StatusColor(Veiculos.VehicleStatuses[j])
    ensures status !in Veiculos.VehicleStatuses ==> StatusColor(status) == Badges.Gray
  {
    Veiculos.StatusColorsDistinct();
  }

  /**
   * Whether the stock page hands its form modal an `onOpenChange` callback.
   * As written it passes `onClose`, a prop the modal does not read.
   */
  const PassesOnOpenChangeAsWritten := false

  /**
   * A successful save through the stock page's modal as written. The form
   * is emptied and calling the missing `onOpenChange` throws a TypeError,
   * whose message the catch stores as the form error (`thrown`). The page
   * reloads its lists in the same save, and its next render passes a new
   * `{}` as `initialData`, so the modal's reset effect runs and clears that
   * error again. The modal ends open, with an empty form and no error.
   */
  method SaveStockAsWritten(initialData: Option<Record>)
    returns (thrown: string, error: string, stillOpen: bool, form: Record)
    ensures thrown == CrudModal.OpenChangeMissingMessage
    ensures stillOpen && form == map[] && error == ""
  {
    var modal := new CrudModal.Modal(true, initialData, PassesOnOpenChangeAsWritten);
    var _ := modal.HandleSubmit(CrudModal.Saved);
    thrown := modal.error;
    // the re-render after the reload: `editingItem || {}` is a new object
    modal.Reset(Some(map[]));
    error, stillOpen, form := modal.error, modal.isOpen, modal.formData;
  }

  /** Cancel on the stock page's modal as written: the click throws and the modal stays open. */
  method CancelStockAsWritten(initialData: Option<Record>) returns (threw: bool, stillOpen: bool)
    ensures threw && stillOpen
  {
    var modal := new CrudModal.Modal(true, initialData, PassesOnOpenChangeAsWritten);
    threw := modal.Cancel();
    stillOpen := modal.isOpen;
  }

  /** Cancel once the stock page passes `onOpenChange`: the modal closes. */
  method CancelStock(initialData: Option<Record>) returns (threw: bool, stillOpen: bool)
    ensures !threw && !stillOpen
  {
    var modal := new CrudModal.Modal(true, initialData, true);
    threw := modal.Cancel();
    stillOpen := modal.isOpen;
  }

  /**
   * A successful save through the stock page's modal once it passes
   * `onOpenChange={setModalOpen}` like the other pages: nothing throws, the
   * modal closes, and after the same re-render's reset the form is empty
   * with no error.
   */
  method SaveStock(initialData: Option<Record>)
    returns (thrown: string, error: string, stillOpen: bool, form: Record)
    ensures thrown == ""
    ensures !stillOpen && form == map[] && error == ""
  {
    var modal := new CrudModal.Modal(true, initialData, true);
    var _ := modal.HandleSubmit(CrudModal.Saved);
    thrown := modal.error;
    modal.Reset(Some(map[]));
    error, stillOpen, form := modal.error, modal.isOpen, modal.formData;
  }
}
