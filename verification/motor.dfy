/** The search engine of `busca/motor.rs` (`MotorBusca`): a product store
    bounded by a maximum capacity, kept together with the inverted index of
    the stored products. */
module Motor {
  import opened Wrappers
  import opened Modelos
  import opened Texto
  import opened Indexacao

  /** The message `adicionar_produto` returns when the store is full. */
  const ErroCapacidade: string := "Capacidade máxima atingida"

  class MotorBusca {
    var produtos: map<u32, Produto>
    const indice: IndiceInverso
    const capacidadeMaxima: nat

    /** The invariant every operation keeps: the store is within capacity,
        each product is stored under its own id, every id the index holds
        is stored, and every token of every stored product leads to it. */
    ghost predicate Valid()
      reads this, indice
    {
      && |produtos| <= capacidadeMaxima
      && IdsProprios(produtos)
      && IdsEm(indice.Estado(), produtos.Keys)
      && (forall id :: id in produtos ==> Cobre(indice.Estado(), produtos[id]))
    }

    /** `MotorBusca::new`: an empty store and an empty index. */
    constructor (capacidadeMaxima: nat)
      ensures Valid()
      ensures produtos == map[] && indice.Estado() == Vazio
      ensures this.capacidadeMaxima == capacidadeMaxima
      ensures fresh(indice)
    {
      produtos := map[];
      indice := new IndiceInverso();
      this.capacidadeMaxima := capacidadeMaxima;
    }

    /** `MotorBusca::adicionar_produto`: refuses when the store already
        holds `capacidade_maxima` products, even if `p.id` is among them;
        otherwise indexes `p` and stores it under its id, replacing any
        product stored there. */
    method AdicionarProduto(p: Produto) returns (r: Result<(), string>)
      requires Valid()
      modifies this, indice
      ensures Valid()
      ensures r.Err? <==> old(|produtos|) >= capacidadeMaxima
      ensures r.Err? ==> r.error == ErroCapacidade
      ensures r.Err? ==> produtos == old(produtos) && indice.Estado() == old(indice.Estado())
      ensures r.Ok? ==> produtos == old(produtos)[p.id := p]
      ensures r.Ok? ==> |produtos| == old(|produtos|) + (if p.id in old(produtos) then 0 else 1)
      ensures r.Ok? ==> indice.Estado() == Indexado(old(indice.Estado()), p)
    {
      if |produtos| >= capacidadeMaxima {
        return Err(ErroCapacidade);
      }
      ghost var antes := indice.Estado();
      ghost var guardados := produtos;
      indice.IndexarProduto(p);
      produtos := produtos[p.id := p];
      ArmazenarValido(antes, guardados, p);
      r := Ok(());
    }

    /** `MotorBusca::buscar`: the stored products whose ids the index
        returns for `query`, each once, in no particular order. Since the
        index holds only stored ids, none is dropped. */
    method Buscar(query: string) returns (r: seq<Produto>)
      requires Valid()
      ensures Distinct(r)
      ensures forall x :: x in r <==>
                x.id in Correspondencias(indice.indiceTexto, Processar(query))
                && x.id in produtos && produtos[x.id] == x
      ensures |r| == |Correspondencias(indice.indiceTexto, Processar(query))|
    {
      var ids := indice.Buscar(query);
      BuscaArmazenada(indice.Estado(), produtos.Keys, query);
      r := Projetar(produtos, ids);
    }

    /** `MotorBusca::obter_produto_por_id`. */
    function ObterProdutoPorId(id: u32): (r: Option<Produto>)
      reads this, indice
      ensures r.Some? <==> id in produtos
      ensures r.Some? ==> r.value == produtos[id]
      ensures r.Some? && Valid() ==> r.value.id == id
    {
      if id in produtos then Some(produtos[id]) else None
    }

    /** `MotorBusca::obter_todos_produtos`: every stored product once, in no
        particular order. */
    method ObterTodosProdutos() returns (r: seq<Produto>)
      requires Valid()
      ensures Distinct(r)
      ensures forall x :: x in r <==> x.id in produtos && produtos[x.id] == x
      ensures |r| == TotalProdutos()
    {
      r := Projetar(produtos, produtos.Keys);
    }

    /** `MotorBusca::total_produtos`: never more than the capacity. */
    function TotalProdutos(): (n: nat)
      reads this, indice
      ensures n == |produtos|
      ensures Valid() ==> n <= capacidadeMaxima
    {
      |produtos|
    }
  }

  /** Each product is stored under its own id. */
  predicate IdsProprios(produtos: map<u32, Produto>) {
    forall id :: id in produtos ==> produtos[id].id == id
  }

  /** The `filter_map(|id| produtos.get(id)).collect()` of `buscar` (and the
      `values().collect()` of `obter_todos_produtos`, over all keys): the
      products stored under `ids`, each once; ids that are not stored are
      skipped. The set is visited in an arbitrary order. */
  method Projetar(produtos: map<u32, Produto>, ids: set<u32>) returns (r: seq<Produto>)
    requires IdsProprios(produtos)
    ensures Distinct(r)
    ensures forall x :: x in r <==> x.id in ids && x.id in produtos && produtos[x.id] == x
    ensures ids <= produtos.Keys ==> |r| == |ids|
  {
    r := [];
    var resto := ids;
    ghost var vistos: set<u32> := {};
    while resto != {}
      invariant vistos + resto == ids && vistos !! resto
      invariant forall x :: x in r <==> x.id in vistos && x.id in produtos && produtos[x.id] == x
      invariant Distinct(r)
      invariant vistos <= produtos.Keys ==> |r| == |vistos|
      decreases |resto|
    {
      var id :| id in resto;
      if id in produtos {
        DistinctAppend(r, [produtos[id]]);
        r := r + [produtos[id]];
      }
      resto := resto - {id};
      vistos := vistos + {id};
    }
  }

  // ---------------------------------------------------------------------
  // Lemmas

  /** Every id `buscar` returns is stored when the index holds only stored
      ids. */
  lemma BuscaArmazenada(ix: Indices, ids: set<u32>, query: string)
    requires IdsEm(ix, ids)
    ensures Correspondencias(ix.texto, Processar(query)) <= ids
  {
    forall id | id in Correspondencias(ix.texto, Processar(query)) ensures id in ids {
      var t :| t in Processar(query) && t in ix.texto && id in ix.texto[t];
    }
  }

  /** Storing `p` after indexing it keeps the index/store part of the
      invariant. */
  lemma ArmazenarValido(ix: Indices, produtos: map<u32, Produto>, p: Produto)
    requires forall id :: id in produtos ==> produtos[id].id == id
    requires IdsEm(ix, produtos.Keys)
    requires forall id :: id in produtos ==> Cobre(ix, produtos[id])
    ensures var novos := produtos[p.id := p];
      && (forall id :: id in novos ==> novos[id].id == id)
      && IdsEm(Indexado(ix, p), novos.Keys)
      && (forall id :: id in novos ==> Cobre(Indexado(ix, p), novos[id]))
  {
    var novos := produtos[p.id := p];
    IndexadoIdsEm(ix, p, novos.Keys);
    IndexadoCobre(ix, p);
    forall id | id in novos && id != p.id
      ensures Cobre(Indexado(ix, p), novos[id])
    {
      CobrePreservado(ix, produtos[id], p);
    }
  }
}
