/**
 * The status-history page (app/historico/page.tsx): the entries shown for
 * the selected vehicle, the status badge colours and the row fallbacks.
 */
module Historico {
  import opened Options
  import opened JsValues
  import opened Seqs
  import Veiculos
  import Badges

  /** A status-history entry as the API lists it. */
  datatype HistoryEntry = HistoryEntry(id: string, veiculoId: string, status: string, descricao: Value, criadoEm: string)

  /**
   * `dadosExibir`: with a vehicle selected, the entries of that vehicle in
   * their original order; with none selected ('' ), the whole history.
   */
  function DisplayedEntries(historico: seq<HistoryEntry>, selectedVeiculo: string): (r: seq<HistoryEntry>)
    ensures selectedVeiculo == "" ==> r == historico
    ensures IsSubseq(r, historico)
    ensures selectedVeiculo != "" ==> forall e :: e in r ==> e.veiculoId == selectedVeiculo
    ensures selectedVeiculo != "" ==> forall e ::
              multiset(r)[e] == if e.veiculoId == selectedVeiculo then multiset(historico)[e] else 0
  {
    if selectedVeiculo != "" then
      var p := (h: HistoryEntry) => h.veiculoId == selectedVeiculo;
      FilterIsSubseq(historico, p);
      assert forall e :: multiset(Filter(historico, p))[e] == if p(e) then multiset(historico)[e] else 0 by {
        forall e ensures multiset(Filter(historico, p))[e] == if p(e) then multiset(historico)[e] else 0 {
          FilterCount(historico, p, e);
        }
      }
      Filter(historico, p)
    else
      SubseqRefl(historico);
      historico
  }

  /** Every entry of the selected vehicle is shown, and no entry of another vehicle. */
  lemma DisplayedEntriesExactly(historico: seq<HistoryEntry>, selectedVeiculo: string, e: HistoryEntry)
    requires selectedVeiculo != "" && e in historico
    ensures e in DisplayedEntries(historico, selectedVeiculo) <==> e.veiculoId == selectedVeiculo
  {
    var r := DisplayedEntries(historico, selectedVeiculo);
    assert e in r <==> multiset(r)[e] > 0;
  }

  /** The three statuses this page colours. */
  const ColouredStatuses: seq<string> := ["DISPONIVEL", "ALUGADO", "MANUTENCAO"]

  /** `getStatusColor` of the history page: three colours, gray for every other status. */
  function StatusColor(status: string): (c: string)
    ensures status !in ColouredStatuses <==> c == Badges.Gray
  {
    match status
    case "DISPONIVEL" => Badges.Green
    case "ALUGADO" => Badges.Blue
    case "MANUTENCAO" => Badges.Yellow
    case _ => Badges.Gray
  }

  /** Unlike the vehicle page, this page shows RESERVADO, FORA_AREA and EM_USO in gray. */
  lemma StatusColorsDistinct()
    ensures forall i, j :: 0 <= i < j < |ColouredStatuses| ==>
      StatusColor(ColouredStatuses[i]) != StatusColor(ColouredStatuses[j])
    ensures StatusColor("RESERVADO") == StatusColor("FORA_AREA") == StatusColor("EM_USO") == Badges.Gray
  {
  }

  /** The vehicle cell: `${marca} ${modelo}` of the entry's vehicle, or '-' when it is not listed. */
  function VehicleCell(veiculos: seq<Veiculos.Vehicle>, veiculoId: string): (cell: string)
    ensures cell == "-" <==> forall i :: 0 <= i < |veiculos| ==> veiculos[i].id != veiculoId
    ensures Veiculos.FindVehicle(veiculos, veiculoId).Some? ==>
              var v := Veiculos.FindVehicle(veiculos, veiculoId).value;
              cell == v.marca + " " + v.modelo && v.id == veiculoId
  {
    match Veiculos.FindVehicle(veiculos, veiculoId)
    case Some(v) =>
      // the label holds a space, so it is never the bare '-'
      assert (v.marca + " " + v.modelo)[|v.marca|] == ' ';
      v.marca + " " + v.modelo
    case None => "-"
  }

  /** The description cell: `descricao || '-'`, never blank. */
  function DescriptionCell(descricao: Value): (cell: Value)
    ensures Truthy(cell)
    ensures !Truthy(descricao) ==> cell == Str("-")
    ensures Truthy(descricao) ==> cell == descricao
  {
    Or(descricao, Str("-"))
  }
}
