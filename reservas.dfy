/**
 * The reservation page (app/reservas/page.tsx): the quote of period and
 * total, the record the form submits, which of the Confirm and Cancel
 * actions a row offers, and the status badge colours.
 *
 * Times are integer milliseconds, as `Date.getTime()` gives them; money is
 * integer cents.
 */
module Reservas {
  import opened Options
  import opened JsValues
  import Veiculos
  import CrudModal
  import Badges

  /** `1000 * 60 * 60 * 24`, one day in milliseconds. */
  const DayMillis: int := 1000 * 60 * 60 * 24

  function Abs(x: int): nat { if x < 0 then -x else x }

  /** `Math.ceil(diff / DayMillis)` for a non-negative millisecond difference. */
  function CeilDays(diff: nat): (p: nat)
    ensures (p - 1) * DayMillis < diff <= p * DayMillis
    ensures p == 0 <==> diff == 0
  {
    (diff + DayMillis - 1) / DayMillis
  }

  /** The bound of `CeilDays` fixes it: it is the only count of days with that bound. */
  lemma CeilDaysUnique(diff: nat, q: int)
    requires (q - 1) * DayMillis < diff <= q * DayMillis
    ensures q == CeilDays(diff)
  {
  }

  /** The quote of a reservation: the period in days and the total in cents. */
  datatype Quote = Quote(periodo: nat, valorTotalCents: int)

  /** The form supplies both dates and a vehicle: the condition of line 46. */
  predicate QuoteInputsPresent(dataInicio: Value, dataFim: Value, veiculoId: Value) {
    Truthy(dataInicio) && Truthy(dataFim) && Truthy(veiculoId)
  }

  /** `vehicle ? vehicle.diaria : 0` after `veiculos.find(v => v.id === veiculoId)`. */
  function DailyRateCents(veiculos: seq<Veiculos.Vehicle>, veiculoId: Value): (rate: int)
    ensures !veiculoId.Str? ==> rate == 0
    ensures veiculoId.Str? && Veiculos.FindVehicle(veiculos, veiculoId.s).None? ==> rate == 0
    ensures veiculoId.Str? && Veiculos.FindVehicle(veiculos, veiculoId.s).Some? ==>
              rate == Veiculos.FindVehicle(veiculos, veiculoId.s).value.diariaCents
  {
    // strict equality with a string id: only a string can match
    if !veiculoId.Str? then 0
    else
      match Veiculos.FindVehicle(veiculos, veiculoId.s)
      case Some(v) => v.diariaCents
      case None => 0
  }

  /** The millisecond difference between the two dates, whichever comes first. */
  function DiffMillis(dataInicio: Value, dataFim: Value, timeOf: Value -> int): nat {
    Abs(timeOf(dataFim) - timeOf(dataInicio))
  }

  /**
   * `calculateReservationValues`. `timeOf` stands for `new Date(v).getTime()`.
   * Missing inputs give the zero quote; otherwise the period is the number of
   * started days between the dates in either order, and the total is the
   * period times the vehicle's daily rate (0 for an unknown vehicle).
   */
  function CalculateReservationValues(dataInicio: Value, dataFim: Value, veiculoId: Value,
                                      veiculos: seq<Veiculos.Vehicle>, timeOf: Value -> int): (q: Quote)
    ensures !QuoteInputsPresent(dataInicio, dataFim, veiculoId) ==> q == Quote(0, 0)
    ensures QuoteInputsPresent(dataInicio, dataFim, veiculoId) ==>
              var d := DiffMillis(dataInicio, dataFim, timeOf);
              (q.periodo - 1) * DayMillis < d <= q.periodo * DayMillis
    ensures q.valorTotalCents == q.periodo * DailyRateCents(veiculos, veiculoId)
  {
    if QuoteInputsPresent(dataInicio, dataFim, veiculoId) then
      var diffDays := CeilDays(DiffMillis(dataInicio, dataFim, timeOf));
      Quote(diffDays, diffDays * DailyRateCents(veiculos, veiculoId))
    else
      Quote(0, 0)
  }

  /** Swapping the dates does not change the quote: reversed dates are accepted. */
  lemma QuoteSymmetric(dataInicio: Value, dataFim: Value, veiculoId: Value,
                       veiculos: seq<Veiculos.Vehicle>, timeOf: Value -> int)
    ensures CalculateReservationValues(dataInicio, dataFim, veiculoId, veiculos, timeOf)
         == CalculateReservationValues(dataFim, dataInicio, veiculoId, veiculos, timeOf)
  {
  }

  /** A rental that starts and ends at the same instant is quoted 0 days and 0 cents. */
  lemma SameDayQuoteIsZero(dataInicio: Value, dataFim: Value, veiculoId: Value,
                           veiculos: seq<Veiculos.Vehicle>, timeOf: Value -> int)
    requires timeOf(dataInicio) == timeOf(dataFim)
    ensures CalculateReservationValues(dataInicio, dataFim, veiculoId, veiculos, timeOf) == Quote(0, 0)
  {
  }

  /** An unknown vehicle gives a zero total while the period is still counted. */
  lemma UnknownVehicleQuote(dataInicio: Value, dataFim: Value, id: string,
                            veiculos: seq<Veiculos.Vehicle>, timeOf: Value -> int)
    requires Truthy(dataInicio) && Truthy(dataFim) && id != ""
    requires forall i :: 0 <= i < |veiculos| ==> veiculos[i].id != id
    ensures CalculateReservationValues(dataInicio, dataFim, Str(id), veiculos, timeOf)
         == Quote(CeilDays(DiffMillis(dataInicio, dataFim, timeOf)), 0)
  {
  }

  /** Four days at R$ 100.00 a day come to R$ 400.00. */
  lemma FourDayExample(dataInicio: Value, dataFim: Value, v: Veiculos.Vehicle, timeOf: Value -> int)
    requires Truthy(dataInicio) && Truthy(dataFim) && v.id != "" && v.diariaCents == 10000
    requires timeOf(dataFim) == timeOf(dataInicio) + 4 * DayMillis
    ensures CalculateReservationValues(dataInicio, dataFim, Str(v.id), [v], timeOf) == Quote(4, 40000)
  {
    assert CeilDays(4 * DayMillis) == 4;
  }

  /** The record the reservation form submits. */
  datatype ReservationSubmit = ReservationSubmit(
    clienteId: Value,
    veiculoId: Value,
    lojaRetiradaId: Value,
    lojaDevolucaoId: Value,
    dataInicio: Value,
    dataFim: Value,
    valorTotalCents: int,
    periodo: nat,
    motoristaIncluido: bool,
    canalOrigem: Value,
    status: Value)

  /** `submitData` in `handleSubmit`. */
  function ReservationSubmitData(data: Record, veiculos: seq<Veiculos.Vehicle>, timeOf: Value -> int)
    : (r: ReservationSubmit)
    // the IDs and dates are copied as they are
    ensures r.clienteId == Get(data, "cliente_id") && r.veiculoId == Get(data, "veiculo_id")
    ensures r.lojaRetiradaId == Get(data, "loja_retirada_id") && r.lojaDevolucaoId == Get(data, "loja_devolucao_id")
    ensures r.dataInicio == Get(data, "data_inicio") && r.dataFim == Get(data, "data_fim")
    // period and total are the quote of the record's own dates and vehicle
    ensures Quote(r.periodo, r.valorTotalCents)
         == CalculateReservationValues(r.dataInicio, r.dataFim, r.veiculoId, veiculos, timeOf)
    // the driver flag is set only by the string 'true' or the boolean true
    ensures r.motoristaIncluido <==>
              Get(data, "motorista_incluido") == Str("true") || Get(data, "motorista_incluido") == Bool(true)
    // channel and status are never sent empty: WEB and PENDENTE_PAGAMENTO stand in
    ensures Truthy(r.canalOrigem) && Truthy(r.status)
    ensures !Truthy(Get(data, "canal_origem")) ==> r.canalOrigem == Str("WEB")
    ensures Truthy(Get(data, "canal_origem")) ==> r.canalOrigem == Get(data, "canal_origem")
    ensures !Truthy(Get(data, "status")) ==> r.status == Str("PENDENTE_PAGAMENTO")
    ensures Truthy(Get(data, "status")) ==> r.status == Get(data, "status")
  {
    var valores := CalculateReservationValues(
      Get(data, "data_inicio"), Get(data, "data_fim"), Get(data, "veiculo_id"), veiculos, timeOf);
    ReservationSubmit(
      clienteId := Get(data, "cliente_id"),
      veiculoId := Get(data, "veiculo_id"),
      lojaRetiradaId := Get(data, "loja_retirada_id"),
      lojaDevolucaoId := Get(data, "loja_devolucao_id"),
      dataInicio := Get(data, "data_inicio"),
      dataFim := Get(data, "data_fim"),
      valorTotalCents := valores.valorTotalCents,
      periodo := valores.periodo,
      motoristaIncluido := Get(data, "motorista_incluido") == Str("true") || Get(data, "motorista_incluido") == Bool(true),
      canalOrigem := Or(Get(data, "canal_origem"), Str("WEB")),
      status := Or(Get(data, "status"), Str("PENDENTE_PAGAMENTO")))
  }

  /** The submitted driver flag is what the form's checkbox showed. */
  lemma SubmittedDriverFlagIsCheckbox(data: Record, veiculos: seq<Veiculos.Vehicle>, timeOf: Value -> int)
    ensures ReservationSubmitData(data, veiculos, timeOf).motoristaIncluido == CrudModal.IsChecked(data, "motorista_incluido")
  {
  }

  /** Clicking the driver checkbox and submitting sends exactly the clicked state. */
  lemma DriverCheckboxRoundTrip(data: Record, value: string, checked: bool,
                                veiculos: seq<Veiculos.Vehicle>, timeOf: Value -> int)
    ensures ReservationSubmitData(
              CrudModal.ApplyChange(data, CrudModal.ChangeEvent("motorista_incluido", value, true, checked)),
              veiculos, timeOf).motoristaIncluido == checked
  {
    var e := CrudModal.ChangeEvent("motorista_incluido", value, true, checked);
    SubmittedDriverFlagIsCheckbox(CrudModal.ApplyChange(data, e), veiculos, timeOf);
    CrudModal.CheckboxShowsWhatWasClicked(data, "motorista_incluido", value, checked);
  }

  /** The per-row actions `customActions` produces. */
  datatype Action = Confirm | Cancel

  /** `customActions`: Confirm unless already confirmed or cancelled, then Cancel unless cancelled or finished. */
  function CustomActions(status: string): (acts: seq<Action>)
    ensures Confirm in acts <==> status != "CONFIRMADA" && status != "CANCELADA"
    ensures Cancel in acts <==> status != "CANCELADA" && status != "FINALIZADA"
    ensures |acts| <= 2 && (|acts| == 2 ==> acts == [Confirm, Cancel])
  {
    (if status != "CONFIRMADA" && status != "CANCELADA" then [Confirm] else [])
    + (if status != "CANCELADA" && status != "FINALIZADA" then [Cancel] else [])
  }

  /** The offer per status: a cancelled reservation offers nothing, a finished one still offers Confirm. */
  lemma ActionsPerStatus()
    ensures CustomActions("PENDENTE_PAGAMENTO") == [Confirm, Cancel]
    ensures CustomActions("CONFIRMADA") == [Cancel]
    ensures CustomActions("EM_CURSO") == [Confirm, Cancel]
    ensures CustomActions("FINALIZADA") == [Confirm]
    ensures CustomActions("CANCELADA") == []
  {
  }

  /** The five statuses the status selector offers. */
  const ReservationStatuses: seq<string> := ["PENDENTE_PAGAMENTO", "CONFIRMADA", "EM_CURSO", "FINALIZADA", "CANCELADA"]

  /** `getStatusColor` of the reservation page. */
  function StatusColor(status: string): (c: string)
    ensures status !in ReservationStatuses ==> c == Badges.Gray
  {
    match status
    case "PENDENTE_PAGAMENTO" => Badges.Yellow
    case "CONFIRMADA" => Badges.Blue
    case "EM_CURSO" => Badges.Green
    case "FINALIZADA" => Badges.Gray
    case "CANCELADA" => Badges.Red
    case _ => Badges.Gray
  }

  /** The five statuses get five different colours; FINALIZADA shares gray with unknown statuses. */
  lemma StatusColorsDistinct()
    ensures forall i, j :: 0 <= i < j < |ReservationStatuses| ==>
      StatusColor(ReservationStatuses[i]) != StatusColor(ReservationStatuses[j])
    ensures StatusColor("FINALIZADA") == StatusColor("")
  {
  }
}
