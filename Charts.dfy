/** The guards in front of the two chart helpers. Drawing the figure and
    encoding it as base64 PNG are not modelled: a drawn chart is represented
    by the series it was drawn from. */
module Charts {
  import opened Wrappers
  import opened Records

  datatype Chart = Chart(title: string, labels: seq<string>, data: seq<Cents>)

  predicate AllZero(data: seq<Cents>)
  {
    forall i :: 0 <= i < |data| ==> data[i] == 0
  }

  /** `gerar_grafico_pizza`: no chart only for an empty series. */
  function PieChart(labels: seq<string>, data: seq<Cents>, title: string): (r: Option<Chart>)
    ensures r.None? <==> |data| == 0
    ensures r.Some? ==> r.value.labels == labels && r.value.data == data
  {
    if data == [] then None else Some(Chart(title, labels, data))
  }

  /** `gerar_grafico_barras`: no chart for an empty or all-zero series. */
  function BarChart(labels: seq<string>, data: seq<Cents>, title: string): (r: Option<Chart>)
    ensures r.None? <==> forall i :: 0 <= i < |data| ==> data[i] == 0
    ensures r.Some? ==> r.value.labels == labels && r.value.data == data && exists i :: 0 <= i < |data| && data[i] != 0
  {
    if data == [] || AllZero(data) then None else Some(Chart(title, labels, data))
  }

  /** The pie guard lets a non-empty all-zero series through; the bar guard
      does not. On an empty series both give no chart. */
  lemma GuardsDiffer(labels: seq<string>, data: seq<Cents>, title: string)
    ensures data != [] && AllZero(data) ==>
      PieChart(labels, data, title).Some? && BarChart(labels, data, title).None?
    ensures data == [] ==> PieChart(labels, data, title).None? && BarChart(labels, data, title).None?
  {
  }
}
