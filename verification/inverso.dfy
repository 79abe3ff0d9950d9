/** The inverted index of `indexacao/inverso.rs` (`IndiceInverso`): four maps
    from token to the set of product ids whose text produced that token, one
    per indexed field (name, brand, category) and one for the three fields
    joined by spaces, which is the map queries are answered from. */
module Indexacao {
  import opened Wrappers
  import opened Modelos
  import opened Texto

  /** One `HashMap<String, HashSet<u32>>`. */
  type Indice = map<string, set<u32>>

  /** The four maps of an `IndiceInverso`, as one value. */
  datatype Indices = Indices(nome: Indice, marca: Indice, categoria: Indice, texto: Indice)

  const Vazio: Indices := Indices(map[], map[], map[], map[])

  /** The set stored under `t`, or the empty set when `t` is absent. */
  function Em(m: Indice, t: string): set<u32> {
    if t in m then m[t] else {}
  }

  /** The text of the combined map: `format!("{} {} {}", nome, marca, categoria)`. */
  function TextoCompleto(p: Produto): string {
    p.nome + " " + p.marca + " " + p.categoria
  }

  // ---------------------------------------------------------------------
  // Specification functions

  /** `m` with `id` added to the set of every token of `tokens`; the sets of
      tokens that were absent start empty. */
  function Inserido(m: Indice, tokens: seq<string>, id: u32): Indice {
    map t | t in m.Keys + Elements(tokens) :: Em(m, t) + (if t in tokens then {id} else {})
  }

  /** All four maps after indexing product `p`. */
  function Indexado(ix: Indices, p: Produto): Indices {
    Indices(
      Inserido(ix.nome, Processar(p.nome), p.id),
      Inserido(ix.marca, Processar(p.marca), p.id),
      Inserido(ix.categoria, Processar(p.categoria), p.id),
      Inserido(ix.texto, Processar(TextoCompleto(p)), p.id))
  }

  /** The ids stored under any of `tokens` in `m` (OR semantics). */
  function Correspondencias(m: Indice, tokens: seq<string>): set<u32> {
    set t, id | t in tokens && t in m && id in m[t] :: id
  }

  /** `IndiceInverso::buscar_no_indice`: the set stored in `indice` under the
      `processar_termo` form of `termo`, or the empty set. */
  function BuscarNoIndice(termo: string, indice: Indice): (r: set<u32>)
    ensures r == Correspondencias(indice, [ProcessarTermo(termo)])
  {
    Em(indice, ProcessarTermo(termo))
  }

  /** `m2` keeps every key and every id of `m1`. */
  predicate Estende(m1: Indice, m2: Indice) {
    forall t :: t in m1 ==> t in m2 && m1[t] <= m2[t]
  }

  /** Every key of `m` is a token `processar` can produce. */
  predicate ChavesSaoTokens(m: Indice) {
    forall t :: t in m ==> IsToken(t)
  }

  /** Every id stored anywhere in `ix` belongs to `ids`. */
  predicate IdsEm(ix: Indices, ids: set<u32>) {
    && (forall t :: t in ix.nome ==> ix.nome[t] <= ids)
    && (forall t :: t in ix.marca ==> ix.marca[t] <= ids)
    && (forall t :: t in ix.categoria ==> ix.categoria[t] <= ids)
    && (forall t :: t in ix.texto ==> ix.texto[t] <= ids)
  }

  /** `id` is stored under every token of `tokens`. */
  predicate CobreTokens(m: Indice, tokens: seq<string>, id: u32) {
    forall t :: t in tokens ==> t in m && id in m[t]
  }

  /** Every token of every indexed field of `p` leads to `p.id`. */
  predicate Cobre(ix: Indices, p: Produto) {
    && CobreTokens(ix.nome, Processar(p.nome), p.id)
    && CobreTokens(ix.marca, Processar(p.marca), p.id)
    && CobreTokens(ix.categoria, Processar(p.categoria), p.id)
    && CobreTokens(ix.texto, Processar(TextoCompleto(p)), p.id)
  }

  // ---------------------------------------------------------------------
  // IndiceInverso

  class IndiceInverso {
    var indiceNome: Indice
    var indiceMarca: Indice
    var indiceCategoria: Indice
    var indiceTexto: Indice

    function Estado(): Indices
      reads this
    {
      Indices(indiceNome, indiceMarca, indiceCategoria, indiceTexto)
    }

    /** `IndiceInverso::new`: four empty maps. */
    constructor ()
      ensures Estado() == Vazio
    {
      indiceNome, indiceMarca, indiceCategoria, indiceTexto := map[], map[], map[], map[];
    }

    /** `IndiceInverso::indexar_produto`: indexes the three fields separately
        and their space-joined text in the combined map. */
    method IndexarProduto(p: Produto)
      modifies this
      ensures Estado() == Indexado(old(Estado()), p)
    {
      indiceNome := IndexarTexto(indiceNome, p.nome, p.id);
      indiceMarca := IndexarTexto(indiceMarca, p.marca, p.id);
      indiceCategoria := IndexarTexto(indiceCategoria, p.categoria, p.id);
      var textoCompleto := p.nome + " " + p.marca + " " + p.categoria;
      indiceTexto := IndexarTexto(indiceTexto, textoCompleto, p.id);
    }

    /** `IndiceInverso::indexar_texto`: inserts `id` under each token of
        `texto`, creating missing entries. The source updates the map in
        place; here the updated map is returned. */
    static method IndexarTexto(indice: Indice, texto: string, id: u32) returns (r: Indice)
      ensures r == Inserido(indice, Processar(texto), id)
    {
      var tokens := Processar(texto);
      r := InserirTokens(indice, tokens, id);
    }

    /** `IndiceInverso::buscar`: the union of the combined map's sets over the
        query's tokens; tokens that are absent contribute nothing. */
    method Buscar(query: string) returns (resultados: set<u32>)
      ensures resultados == Correspondencias(indiceTexto, Processar(query))
    {
      var tokens := Processar(query);
      resultados := Uniao(indiceTexto, tokens);
    }
  }

  /** The loop of `indexar_texto`: for each token, the set under it (created
      empty when absent) receives `id`. */
  method InserirTokens(indice: Indice, tokens: seq<string>, id: u32) returns (r: Indice)
    ensures r == Inserido(indice, tokens, id)
  {
    r := indice;
    InseridoNada(indice, id);
    for i := 0 to |tokens|
      invariant r == Inserido(indice, tokens[..i], id)
    {
      var token := tokens[i];
      InseridoPasso(indice, tokens[..i], token, id);
      assert tokens[..i + 1] == tokens[..i] + [token];
      var conjunto := if token in r then r[token] else {};
      r := r[token := conjunto + {id}];
    }
    assert tokens[..|tokens|] == tokens;
  }

  /** The loop of `buscar`: the union of the sets under `tokens`. */
  method Uniao(m: Indice, tokens: seq<string>) returns (resultados: set<u32>)
    ensures resultados == Correspondencias(m, tokens)
  {
    resultados := {};
    for i := 0 to |tokens|
      invariant resultados == Correspondencias(m, tokens[..i])
    {
      var token := tokens[i];
      CorrespondenciasConcat(m, tokens[..i], [token]);
      assert tokens[..i + 1] == tokens[..i] + [token];
      if token in m {
        resultados := resultados + m[token];
      }
    }
    assert tokens[..|tokens|] == tokens;
  }

  // ---------------------------------------------------------------------
  // Lemmas about insertion

  /** Inserting no token changes nothing. */
  lemma InseridoNada(m: Indice, id: u32)
    ensures Inserido(m, [], id) == m
  {
    var r := Inserido(m, [], id);
    assert r.Keys == m.Keys;
    forall t | t in m ensures r[t] == m[t] {
    }
  }

  /** One step of the loop of `indexar_texto`. */
  lemma InseridoPasso(m: Indice, tokens: seq<string>, t: string, id: u32)
    ensures var r := Inserido(m, tokens, id);
      Inserido(m, tokens + [t], id) == r[t := Em(r, t) + {id}]
  {
    var r := Inserido(m, tokens, id);
    var a := Inserido(m, tokens + [t], id);
    var b := r[t := Em(r, t) + {id}];
    assert forall u :: u in tokens + [t] <==> u in tokens || u == t;
    assert a.Keys == b.Keys;
    forall u | u in a ensures a[u] == b[u] {
    }
  }

  /** Indexing only adds: no key and no id disappears, only `id` is added,
      and the keys that are not among `tokens` keep their sets. */
  lemma InseridoSoAcrescenta(m: Indice, tokens: seq<string>, id: u32)
    ensures var r := Inserido(m, tokens, id);
      && Estende(m, r)
      && CobreTokens(r, tokens, id)
      && (forall t :: t in r ==> r[t] <= Em(m, t) + {id})
      && (forall t :: t in r && t !in tokens ==> t in m && r[t] == m[t])
  {
  }

  /** Inserting the same tokens with the same id twice is the same as once. */
  lemma InseridoIdempotente(m: Indice, tokens: seq<string>, id: u32)
    ensures Inserido(Inserido(m, tokens, id), tokens, id) == Inserido(m, tokens, id)
  {
    var r := Inserido(m, tokens, id);
    var r2 := Inserido(r, tokens, id);
    assert r2.Keys == r.Keys;
    forall t | t in r ensures r2[t] == r[t] {
    }
  }

  /** Every id of `r` that was not already in `ids` is `id`. */
  lemma InseridoIdsEm(m: Indice, tokens: seq<string>, id: u32, ids: set<u32>)
    requires forall t :: t in m ==> m[t] <= ids
    requires id in ids
    ensures var r := Inserido(m, tokens, id);
      forall t :: t in r ==> r[t] <= ids
  {
  }

  /** Keys produced by `processar` stay tokens. */
  lemma InseridoChavesSaoTokens(m: Indice, texto: string, id: u32)
    requires ChavesSaoTokens(m)
    ensures ChavesSaoTokens(Inserido(m, Processar(texto), id))
  {
    ProcessarTokens(texto);
  }

  // ---------------------------------------------------------------------
  // Lemmas about indexing a product

  /** A token is a token of the combined text iff it is a token of one of
      the three fields: the combined map holds exactly the union of what the
      three per-field maps receive. */
  lemma TokensTextoCompleto(p: Produto, t: string)
    ensures t in Processar(TextoCompleto(p)) <==>
              t in Processar(p.nome) || t in Processar(p.marca) || t in Processar(p.categoria)
  {
    ProcessarTresCampos(p.nome, p.marca, p.categoria);
  }

  /** After indexing `p`, its id is under every token of each of its fields,
      in that field's map and in the combined map. */
  lemma IndexadoCobre(ix: Indices, p: Produto)
    ensures Cobre(Indexado(ix, p), p)
    ensures forall t :: t in Processar(p.nome) || t in Processar(p.marca) || t in Processar(p.categoria) ==>
              t in Indexado(ix, p).texto && p.id in Indexado(ix, p).texto[t]
  {
    var r := Indexado(ix, p);
    InseridoSoAcrescenta(ix.texto, Processar(TextoCompleto(p)), p.id);
    forall t | t in Processar(p.nome) || t in Processar(p.marca) || t in Processar(p.categoria)
      ensures t in r.texto && p.id in r.texto[t]
    {
      TokensTextoCompleto(p, t);
    }
  }

  /** Indexing a product only adds: each new map extends the old one, and
      the only id it adds anywhere is `p.id`. */
  lemma IndexadoEstende(ix: Indices, p: Produto)
    ensures var r := Indexado(ix, p);
      && Estende(ix.nome, r.nome) && Estende(ix.marca, r.marca)
      && Estende(ix.categoria, r.categoria) && Estende(ix.texto, r.texto)
      && (forall t :: t in r.texto ==> r.texto[t] <= Em(ix.texto, t) + {p.id})
  {
    InseridoSoAcrescenta(ix.nome, Processar(p.nome), p.id);
    InseridoSoAcrescenta(ix.marca, Processar(p.marca), p.id);
    InseridoSoAcrescenta(ix.categoria, Processar(p.categoria), p.id);
    InseridoSoAcrescenta(ix.texto, Processar(TextoCompleto(p)), p.id);
  }

  /** Indexing the same product twice leaves the four maps as indexing it
      once. */
  lemma IndexadoIdempotente(ix: Indices, p: Produto)
    ensures Indexado(Indexado(ix, p), p) == Indexado(ix, p)
  {
    InseridoIdempotente(ix.nome, Processar(p.nome), p.id);
    InseridoIdempotente(ix.marca, Processar(p.marca), p.id);
    InseridoIdempotente(ix.categoria, Processar(p.categoria), p.id);
    InseridoIdempotente(ix.texto, Processar(TextoCompleto(p)), p.id);
  }

  /** A coverage fact survives indexing any further product. */
  lemma CobrePreservado(ix: Indices, q: Produto, p: Produto)
    requires Cobre(ix, q)
    ensures Cobre(Indexado(ix, p), q)
  {
    IndexadoEstende(ix, p);
  }

  /** Ids stored in the index stay within `ids` once `p.id` joins them. */
  lemma IndexadoIdsEm(ix: Indices, p: Produto, ids: set<u32>)
    requires IdsEm(ix, ids)
    requires p.id in ids
    ensures IdsEm(Indexado(ix, p), ids)
  {
    InseridoIdsEm(ix.nome, Processar(p.nome), p.id, ids);
    InseridoIdsEm(ix.marca, Processar(p.marca), p.id, ids);
    InseridoIdsEm(ix.categoria, Processar(p.categoria), p.id, ids);
    InseridoIdsEm(ix.texto, Processar(TextoCompleto(p)), p.id, ids);
  }

  // ---------------------------------------------------------------------
  // Lemmas about searching

  /** An id is found iff it is stored under one of the tokens. */
  lemma CorrespondenciasEm(m: Indice, tokens: seq<string>, id: u32)
    ensures id in Correspondencias(m, tokens) <==> exists t :: t in tokens && id in Em(m, t)
  {
  }

  lemma CorrespondenciasConcat(m: Indice, a: seq<string>, b: seq<string>)
    ensures Correspondencias(m, a + b) == Correspondencias(m, a) + Correspondencias(m, b)
  {
    assert forall t :: t in a + b <==> t in a || t in b;
  }

  /** OR semantics: a record matches "q1 q2" iff it matches "q1" or "q2". */
  lemma BuscaOu(m: Indice, q1: string, q2: string)
    ensures Correspondencias(m, Processar(q1 + " " + q2)) ==
              Correspondencias(m, Processar(q1)) + Correspondencias(m, Processar(q2))
  {
    ProcessarConcat(q1, q2);
    CorrespondenciasConcat(m, Processar(q1), Processar(q2));
  }

  /** A search on an empty map, or with a query that has no tokens (for
      instance one without letters or digits), finds nothing. */
  lemma BuscaVazia(m: Indice, query: string)
    requires m == map[] || forall i :: 0 <= i < |query| ==> !IsAlphanumeric(query[i])
    ensures Correspondencias(m, Processar(query)) == {}
  {
    if m != map[] {
      ProcessarSemAlfanumerico(query);
    }
  }

  /** Searching after indexing `p` with a query that shares a token with
      any of `p`'s fields finds `p`. */
  lemma BuscaEncontra(ix: Indices, p: Produto, query: string, t: string)
    requires t in Processar(query)
    requires t in Processar(p.nome) || t in Processar(p.marca) || t in Processar(p.categoria)
    ensures p.id in Correspondencias(Indexado(ix, p).texto, Processar(query))
  {
    IndexadoCobre(ix, p);
  }

  /** `buscar_no_indice` with a token of a field finds the product in that
      field's map: `processar_termo` leaves tokens unchanged. */
  lemma BuscarNoIndiceEncontra(ix: Indices, p: Produto, t: string)
    requires t in Processar(p.nome)
    ensures p.id in BuscarNoIndice(t, Indexado(ix, p).nome)
  {
    ProcessarTokens(p.nome);
    ProcessarTermoToken(t);
    InseridoSoAcrescenta(ix.nome, Processar(p.nome), p.id);
  }

  /** Because `processar_termo` keeps punctuation, `buscar_no_indice` misses
      on a term that ends in punctuation in any map built by indexing, while
      `buscar` strips it. */
  lemma BuscarNoIndicePontuacao(m: Indice, termo: string)
    requires ChavesSaoTokens(m)
    requires ProcessarTermo(termo) != []
    requires !IsAlphanumeric(ProcessarTermo(termo)[|ProcessarTermo(termo)| - 1])
    ensures BuscarNoIndice(termo, m) == {}
  {
  }
}
