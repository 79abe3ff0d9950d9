/** The search metrics of `metricas/mod.rs` (`MetricasBusca`): a counter of
    queries and the result count and response time of the last one.
    Durations are natural numbers of clock ticks. */
module Metricas {
  import opened Modelos

  class MetricasBusca {
    var tempoResposta: nat
    var resultadosEncontrados: nat
    var consultasRealizadas: u32

    /** `MetricasBusca::new`: everything zero. */
    constructor ()
      ensures tempoResposta == 0 && resultadosEncontrados == 0 && consultasRealizadas == 0
    {
      tempoResposta, resultadosEncontrados, consultasRealizadas := 0, 0, 0;
    }

    /** `MetricasBusca::registrar_consulta`: counts one more query and
        keeps only this query's figures. The `u32` counter must not be at
        its maximum: the increment would overflow. */
    method RegistrarConsulta(resultados: nat, tempo: nat)
      requires consultasRealizadas as int < U32_MAX
      modifies this
      ensures consultasRealizadas as int == old(consultasRealizadas) as int + 1
      ensures resultadosEncontrados == resultados && tempoResposta == tempo
    {
      consultasRealizadas := consultasRealizadas + 1;
      resultadosEncontrados := resultados;
      tempoResposta := tempo;
    }
  }

  /** A client registering the queries of `consultas` (result count, time)
      in order, as the tests do: the counter grows by their number and the
      last one's figures win. */
  method RegistrarTodas(m: MetricasBusca, consultas: seq<(nat, nat)>)
    requires m.consultasRealizadas as int + |consultas| <= U32_MAX
    modifies m
    ensures m.consultasRealizadas as int == old(m.consultasRealizadas) as int + |consultas|
    ensures consultas != [] ==>
              (m.resultadosEncontrados, m.tempoResposta) == consultas[|consultas| - 1]
    ensures consultas == [] ==>
              m.resultadosEncontrados == old(m.resultadosEncontrados)
              && m.tempoResposta == old(m.tempoResposta)
  {
    for i := 0 to |consultas|
      invariant m.consultasRealizadas as int == old(m.consultasRealizadas) as int + i
      invariant i > 0 ==> (m.resultadosEncontrados, m.tempoResposta) == consultas[i - 1]
      invariant i == 0 ==>
                  m.resultadosEncontrados == old(m.resultadosEncontrados)
                  && m.tempoResposta == old(m.tempoResposta)
    {
      m.RegistrarConsulta(consultas[i].0, consultas[i].1);
    }
  }
}
