/** The recommendation relation of `recomendacao/mod.rs`
    (`GrafoRecomendacao`): a map from a product id to the ids related to it,
    which only grows, and the cart query over it. */
module Recomendacao {
  import opened Wrappers
  import opened Modelos

  /** One `HashMap<u32, HashSet<u32>>`. */
  type Relacoes = map<u32, set<u32>>

  // ---------------------------------------------------------------------
  // Specification functions

  /** The relation after `adicionar_relacao(id, rs)`: the set under `id`
      (created empty when absent) is extended with the ids of `rs`. */
  function ComRelacao(rel: Relacoes, id: u32, rs: seq<u32>): Relacoes {
    rel[id := (if id in rel then rel[id] else {}) + Elements(rs)]
  }

  /** The ids related to some item of `carrinho` that has an entry. */
  function Vizinhos(rel: Relacoes, carrinho: seq<u32>): set<u32> {
    set id, x | id in carrinho && id in rel && x in rel[id] :: x
  }

  /** What `recomendar_baseado_carrinho` returns, as a set: the neighbours
      of the cart that are not in the cart. */
  function Recomendadas(rel: Relacoes, carrinho: seq<u32>): set<u32> {
    Vizinhos(rel, carrinho) - Elements(carrinho)
  }

  // ---------------------------------------------------------------------
  // GrafoRecomendacao

  class GrafoRecomendacao {
    var relacoes: Relacoes

    /** `GrafoRecomendacao::new`: an empty relation. */
    constructor ()
      ensures relacoes == map[]
    {
      relacoes := map[];
    }

    /** `GrafoRecomendacao::adicionar_relacao`. */
    method AdicionarRelacao(id: u32, relacionados: seq<u32>)
      modifies this
      ensures relacoes == ComRelacao(old(relacoes), id, relacionados)
    {
      var conjunto := if id in relacoes then relacoes[id] else {};
      relacoes := relacoes[id := conjunto + Elements(relacionados)];
    }

    /** `GrafoRecomendacao::recomendar_baseado_carrinho`: the neighbours of
        the cart's items, without the items of the cart, each once, in no
        particular order. */
    method RecomendarBaseadoCarrinho(carrinho: seq<u32>) returns (r: seq<u32>)
      ensures Distinct(r)
      ensures forall x :: x in r <==> x in Recomendadas(relacoes, carrinho)
      ensures |r| == |Recomendadas(relacoes, carrinho)|
      ensures forall x :: x in r ==> x !in carrinho
      ensures carrinho == [] ==> r == []
    {
      var recomendacoes := Vizinhanca(relacoes, carrinho);
      var carrinhoSet := Elements(carrinho);
      recomendacoes := Remover(recomendacoes, carrinhoSet);
      r := ParaSequencia(recomendacoes);
      if carrinho == [] {
        assert Vizinhos(relacoes, carrinho) == {};
      }
    }
  }

  /** The first loop of `recomendar_baseado_carrinho`: the union of the
      sets of the cart's items that have an entry. */
  method Vizinhanca(rel: Relacoes, carrinho: seq<u32>) returns (recomendacoes: set<u32>)
    ensures recomendacoes == Vizinhos(rel, carrinho)
  {
    recomendacoes := {};
    for i := 0 to |carrinho|
      invariant recomendacoes == Vizinhos(rel, carrinho[..i])
    {
      var produtoId := carrinho[i];
      VizinhosConcat(rel, carrinho[..i], [produtoId]);
      assert carrinho[..i + 1] == carrinho[..i] + [produtoId];
      if produtoId in rel {
        recomendacoes := recomendacoes + rel[produtoId];
      }
    }
    assert carrinho[..|carrinho|] == carrinho;
  }

  /** The second loop of `recomendar_baseado_carrinho`: removes each item
      of the cart, one at a time. */
  method Remover(recomendacoes: set<u32>, carrinhoSet: set<u32>) returns (r: set<u32>)
    ensures r == recomendacoes - carrinhoSet
  {
    r := recomendacoes;
    var resto := carrinhoSet;
    while resto != {}
      invariant resto <= carrinhoSet
      invariant r == recomendacoes - (carrinhoSet - resto)
      decreases |resto|
    {
      var produtoId :| produtoId in resto;
      r := r - {produtoId};
      resto := resto - {produtoId};
    }
  }

  /** `HashSet::into_iter().collect()`: the elements of `s`, each once, in
      an arbitrary order. */
  method ParaSequencia(s: set<u32>) returns (r: seq<u32>)
    ensures Distinct(r)
    ensures forall x :: x in r <==> x in s
    ensures |r| == |s|
  {
    r := [];
    var resto := s;
    while resto != {}
      invariant resto <= s
      invariant forall x :: x in r <==> x in s - resto
      invariant Distinct(r)
      invariant |r| + |resto| == |s|
      decreases |resto|
    {
      var x :| x in resto;
      DistinctAppend(r, [x]);
      r := r + [x];
      resto := resto - {x};
    }
  }

  // ---------------------------------------------------------------------
  // Lemmas

  lemma VizinhosConcat(rel: Relacoes, a: seq<u32>, b: seq<u32>)
    ensures Vizinhos(rel, a + b) == Vizinhos(rel, a) + Vizinhos(rel, b)
  {
    assert forall id :: id in a + b <==> id in a || id in b;
  }

  /** `adicionar_relacao` only adds: every related id stays related. */
  lemma ComRelacaoEstende(rel: Relacoes, id: u32, rs: seq<u32>)
    ensures var r := ComRelacao(rel, id, rs);
      && r.Keys == rel.Keys + {id}
      && (forall k :: k in rel ==> rel[k] <= r[k])
      && (forall x :: x in rs ==> x in r[id])
      && (forall k :: k in rel && k != id ==> r[k] == rel[k])
  {
  }

  /** Adding the same relation twice is the same as adding it once. */
  lemma ComRelacaoIdempotente(rel: Relacoes, id: u32, rs: seq<u32>)
    ensures ComRelacao(ComRelacao(rel, id, rs), id, rs) == ComRelacao(rel, id, rs)
  {
    var r := ComRelacao(rel, id, rs);
    assert r[id] + Elements(rs) == r[id];
  }

  /** Two additions for the same id accumulate: they are one addition of
      both lists. */
  lemma ComRelacaoAcumula(rel: Relacoes, id: u32, xs: seq<u32>, ys: seq<u32>)
    ensures ComRelacao(ComRelacao(rel, id, xs), id, ys) == ComRelacao(rel, id, xs + ys)
  {
    var antes := if id in rel then rel[id] else {};
    var r1 := ComRelacao(rel, id, xs);
    assert r1[id] == antes + Elements(xs);
    assert Elements(xs + ys) == Elements(xs) + Elements(ys);
    assert ComRelacao(r1, id, ys) == rel[id := antes + Elements(xs) + Elements(ys)];
    assert antes + Elements(xs) + Elements(ys) == antes + Elements(xs + ys);
  }

  /** The order in which relations are added does not matter. */
  lemma ComRelacaoComuta(rel: Relacoes, a: u32, xs: seq<u32>, b: u32, ys: seq<u32>)
    ensures ComRelacao(ComRelacao(rel, a, xs), b, ys) == ComRelacao(ComRelacao(rel, b, ys), a, xs)
  {
    if a == b {
      ComRelacaoAcumula(rel, a, xs, ys);
      ComRelacaoAcumula(rel, a, ys, xs);
      assert Elements(xs + ys) == Elements(ys + xs);
    }
  }

  /** Relating an item of the cart adds exactly the new ids that are not
      in the cart to its recommendations; relating any other item changes
      nothing. */
  lemma RecomendadasAposRelacao(rel: Relacoes, id: u32, rs: seq<u32>, carrinho: seq<u32>)
    ensures id in carrinho ==>
              Recomendadas(ComRelacao(rel, id, rs), carrinho) ==
              Recomendadas(rel, carrinho) + (Elements(rs) - Elements(carrinho))
    ensures id !in carrinho ==>
              Recomendadas(ComRelacao(rel, id, rs), carrinho) == Recomendadas(rel, carrinho)
  {
    var r := ComRelacao(rel, id, rs);
    if id in carrinho {
      forall x | x in Vizinhos(r, carrinho)
        ensures x in Vizinhos(rel, carrinho) || x in Elements(rs)
      {
        var k :| k in carrinho && k in r && x in r[k];
        if k != id || (id in rel && x in rel[id]) {
          assert x in Vizinhos(rel, carrinho);
        }
      }
      forall x | x in Vizinhos(rel, carrinho) ensures x in Vizinhos(r, carrinho) {
        var k :| k in carrinho && k in rel && x in rel[k];
        assert x in r[k];
      }
      forall x | x in Elements(rs) ensures x in Vizinhos(r, carrinho) {
        assert x in r[id];
      }
    } else {
      forall x | x in Vizinhos(r, carrinho) ensures x in Vizinhos(rel, carrinho) {
        var k :| k in carrinho && k in r && x in r[k];
        assert k != id;
      }
      forall x | x in Vizinhos(rel, carrinho) ensures x in Vizinhos(r, carrinho) {
        var k :| k in carrinho && k in rel && x in rel[k];
        assert k != id && x in r[k];
      }
    }
  }
}
