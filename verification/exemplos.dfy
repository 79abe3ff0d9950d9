/** Concrete runs of the model: the examples of the system's own tests and
    design, stated as lemmas and as client methods over the model. */
module Exemplos {
  import opened Wrappers
  import opened Modelos
  import opened Texto
  import opened Indexacao
  import opened Motor
  import opened Cache
  import Lru
  import opened Recomendacao
  import opened Metricas

  // ---------------------------------------------------------------------
  // Tokenizer

  /** "Smartphone Samsung!" yields the tokens "smartphone" and "samsung". */
  lemma ProcessarExemplo(texto: string)
    requires texto == "Smartphone Samsung!"
    ensures Processar(texto) == ["smartphone", "samsung"]
  {
    assert texto == "Smartphone" + " " + "Samsung!";
    ProcessarConcat("Smartphone", "Samsung!");
    PalavraSmartphone();
    ProcessarSamsung();
  }

  /** `processar` strips the trailing '!' of "samsung!"... */
  lemma ProcessarSamsung()
    ensures Processar("Samsung!") == ["samsung"]
  {
    LowerPontual("Samsung!", "samsung!");
    SamsungPalavras();
    SamsungTokens();
  }

  /** ... while `processar_termo` keeps it: the two operations disagree on
      punctuation. */
  lemma ProcessarTermoSamsung(termo: string)
    requires termo == "samsung!"
    ensures ProcessarTermo(termo) == "samsung!"
  {
    LowerPontual(termo, termo);
    assert NoWhitespace(termo);
  }

  /** `Lower` on a literal, checked character by character. */
  lemma LowerPontual(s: string, l: string)
    requires |s| == |l| && forall i :: 0 <= i < |s| ==> LowerChar(s[i]) == l[i]
    ensures Lower(s) == l
  {
  }

  /** A word whose lower-case form `l` is a token is the one token `l`. */
  lemma Palavra(w: string, l: string)
    requires |w| == |l| && forall i :: 0 <= i < |w| ==> LowerChar(w[i]) == l[i]
    requires IsToken(l)
    ensures Processar(w) == [l]
  {
    LowerPontual(w, l);
    ProcessarPalavra(w);
  }

  lemma PalavraSmartphone()
    ensures Processar("Smartphone") == ["smartphone"]
  {
    Palavra("Smartphone", "smartphone");
  }

  lemma PalavraSamsung()
    ensures Processar("Samsung") == ["samsung"]
  {
    Palavra("Samsung", "samsung");
  }

  lemma TokenSamsung()
    ensures Processar("samsung") == ["samsung"]
  {
    Palavra("samsung", "samsung");
  }

  lemma PalavraEletronicos()
    ensures Processar("Eletrônicos") == ["eletrônicos"]
  {
    Palavra("Eletrônicos", "eletrônicos");
  }

  lemma TokenEletronicos()
    ensures Processar("eletrônicos") == ["eletrônicos"]
  {
    Palavra("eletrônicos", "eletrônicos");
  }

  lemma PalavraTest()
    ensures Processar("Test") == ["test"]
  {
    Palavra("Test", "test");
  }

  lemma TokenTest()
    ensures Processar("test") == ["test"]
  {
    Palavra("test", "test");
  }

  lemma SamsungPalavras()
    ensures SplitWhitespace("samsung!") == ["samsung!"]
  {
    assert NoWhitespace("samsung!");
    SplitSemEspaco("samsung!");
  }

  lemma SamsungTokens()
    ensures Tokens(["samsung!"]) == ["samsung"]
  {
    var l := "samsung!";
    assert LeadingMatches(l, NotAlphanumeric) == 0;
    assert l[..7] == "samsung";
    assert TrailingMatches(l, NotAlphanumeric) == 7;
    assert TrimMatches(l, NotAlphanumeric) == "samsung";
    assert Tokens([l]) == ["samsung"] + Tokens([]);
  }

  /** Inner punctuation survives `processar`: "(co-op)" yields "co-op". */
  lemma ProcessarCoop()
    ensures Processar("(co-op)") == ["co-op"]
  {
    PartesCoop();
    TokenCoop();
    Moldura("(");
    Moldura(")");
    ProcessarPadded("(", "co-op", ")");
  }

  /** A single punctuation character is neither whitespace nor a letter or
      digit. */
  lemma Moldura(p: string)
    requires p == "(" || p == ")"
    ensures forall i :: 0 <= i < |p| ==> !IsWhitespace(p[i]) && !IsAlphanumeric(p[i])
  {
    assert p[0] == '(' || p[0] == ')';
  }

  lemma PartesCoop()
    ensures "(" + "co-op" + ")" == "(co-op)"
  {
  }

  lemma TokenCoop()
    ensures Lower("co-op") == "co-op" && IsToken(Lower("co-op"))
  {
    LowerPontual("co-op", "co-op");
  }

  /** `processar_termo` trims only the surrounding whitespace: " Ab c "
      gives "ab c". */
  lemma ProcessarTermoAbc()
    ensures ProcessarTermo(" Ab c ") == "ab c"
  {
    PartesAbc();
    LowerPontual("Ab c", "ab c");
    ProcessarTermoPadded(" ", "Ab c", " ");
  }

  lemma PartesAbc()
    ensures " " + "Ab c" + " " == " Ab c "
  {
  }

  // ---------------------------------------------------------------------
  // Inverted index

  /** The index test `test_indexacao_busca`: a product is found by its
      brand and by its accented category. */
  method IndexacaoBusca() returns (porSamsung: set<u32>, porEletronicos: set<u32>)
    ensures 1 in porSamsung && 1 in porEletronicos
  {
    var indice := new IndiceInverso();
    var p := Produto(1, "Smartphone Samsung", "Samsung", "Eletrônicos", "Descrição");
    indice.IndexarProduto(p);
    porSamsung := indice.Buscar("samsung");
    porEletronicos := indice.Buscar("eletrônicos");
    PalavraSamsung();
    TokenSamsung();
    BuscaEncontra(Vazio, p, "samsung", "samsung");
    PalavraEletronicos();
    TokenEletronicos();
    BuscaEncontra(Vazio, p, "eletrônicos", "eletrônicos");
  }

  /** The index test `test_busca_inexistente`: an empty index finds
      nothing. */
  method BuscaInexistente() returns (r: set<u32>)
    ensures r == {}
  {
    var indice := new IndiceInverso();
    r := indice.Buscar("inexistente");
    BuscaVazia(map[], "inexistente");
  }

  // ---------------------------------------------------------------------
  // Search engine

  /** The engine test `test_adicionar_buscar_produto`, for any product
      named "Test Product": it is the one result of "test". */
  method AdicionarBuscar(p: Produto) returns (resultados: seq<Produto>)
    requires p.nome == "Test Product"
    ensures resultados == [p]
  {
    SoTest(p);
    var motor := new MotorBusca(100);
    var ok := motor.AdicionarProduto(p);
    assert motor.produtos == map[p.id := p];
    resultados := motor.Buscar("test");
    UmSo(resultados, p);
  }

  /** Indexing such a product alone, "test" finds exactly it. */
  lemma SoTest(p: Produto)
    requires p.nome == "Test Product"
    ensures Correspondencias(Indexado(Vazio, p).texto, Processar("test")) == {p.id}
  {
    TestNoNome();
    TokenTest();
    SoEle(Vazio, p, "test", "test");
  }

  /** A sequence of one element, all of whose elements are `p`, is `[p]`. */
  lemma UmSo(r: seq<Produto>, p: Produto)
    requires |r| == |{p.id}| && forall x :: x in r ==> x == p
    ensures r == [p]
  {
    assert r[0] in r;
  }

  /** With only `p` indexed, a query sharing a token with its name finds
      exactly `p`. */
  lemma SoEle(ix: Indices, p: Produto, query: string, t: string)
    requires IdsEm(ix, {p.id})
    requires t in Processar(query) && t in Processar(p.nome)
    ensures Correspondencias(Indexado(ix, p).texto, Processar(query)) == {p.id}
  {
    BuscaEncontra(ix, p, query, t);
    IndexadoIdsEm(ix, p, {p.id});
    BuscaArmazenada(Indexado(ix, p), {p.id}, query);
  }

  lemma TestNoNome()
    ensures "test" in Processar("Test Product")
  {
    NomeTest();
    PalavraTest();
    TokenDaPrimeira("Test", "Product", "test");
  }

  /** The product name split at its space. Kept as a lemma of its own: the
      same equation asserted inside `TestNoNome` makes the solver unfold the
      literal there, beside `Processar`, which costs far more. */
  lemma NomeTest()
    ensures "Test" + " " + "Product" == "Test Product"
  {
  }

  /** A token of the first of two space-separated texts is a token of the
      whole. */
  lemma TokenDaPrimeira(a: string, b: string, t: string)
    requires t in Processar(a)
    ensures t in Processar(a + " " + b)
  {
    ProcessarConcat(a, b);
  }

  /** The engine test `test_capacidade_maxima`, for any two products:
      with capacity one the second product is refused. */
  method CapacidadeMaxima(p1: Produto, p2: Produto)
    returns (r1: Result<(), string>, r2: Result<(), string>, total: nat)
    ensures r1.Ok? && r2 == Err(ErroCapacidade) && total == 1
  {
    var motor := new MotorBusca(1);
    r1 := motor.AdicionarProduto(p1);
    r2 := motor.AdicionarProduto(p2);
    total := motor.TotalProdutos();
  }

  // ---------------------------------------------------------------------
  // Result cache

  /** An entry is a hit while younger than its time to live and is removed
      by the first `obter` at or after that age. */
  method CacheExpira(chave: string, v: seq<u32>, t: nat, tempoVida: nat)
    returns (antes: Option<seq<u32>>, depois: Option<seq<u32>>, tamanho: nat)
    requires tempoVida > 0
    ensures antes == Some(v) && depois == None && tamanho == 0
  {
    var cache := new CacheBusca(10, tempoVida);
    cache.Inserir(chave, v, t);
    antes := cache.Obter(chave, t + tempoVida - 1);
    depois := cache.Obter(chave, t + tempoVida);
    tamanho := cache.Estatisticas();
  }

  /** With capacity two, a third query evicts the least recently used
      one. */
  method CacheLru(a: string, b: string, c: string, va: seq<u32>, vb: seq<u32>, vc: seq<u32>)
    returns (ra: Option<seq<u32>>, rb: Option<seq<u32>>, rc: Option<seq<u32>>)
    requires a != b && b != c && a != c
    ensures ra == None && rb == Some(vb) && rc == Some(vc)
  {
    var cache := TresInsercoes(a, b, c, va, vb, vc);
    ra := cache.Obter(a, 1);
    rb := cache.Obter(b, 1);
    rc := cache.Obter(c, 1);
  }

  /** `inserir` of three distinct queries at instant 0 into a new cache of
      capacity two and time to live 60. */
  method TresInsercoes(a: string, b: string, c: string, va: seq<u32>, vb: seq<u32>, vc: seq<u32>)
    returns (cache: CacheBusca)
    requires a != b && b != c && a != c
    ensures fresh(cache) && cache.Valid() && cache.tempoVida == 60
    ensures a !in cache.cache.entries
    ensures b in cache.cache.entries && cache.cache.entries[b] == Entrada(vb, 0)
    ensures c in cache.cache.entries && cache.cache.entries[c] == Entrada(vc, 0)
  {
    cache := new CacheBusca(2, 60);
    cache.Inserir(a, va, 0);
    cache.Inserir(b, vb, 0);
    cache.Inserir(c, vc, 0);
    LruDespejo(a, b, c, Entrada(va, 0), Entrada(vb, 0), Entrada(vc, 0));
  }

  /** Three `put`s of distinct keys into a cache of capacity two keep the
      last two. */
  lemma LruDespejo<V>(a: string, b: string, c: string, va: V, vb: V, vc: V)
    requires a != b && b != c && a != c
    ensures var c3 := Lru.Put(Lru.Put(Lru.Put(Lru.New(2), a, va), b, vb), c, vc);
      && a !in c3.entries
      && b in c3.entries && c3.entries[b] == vb
      && c in c3.entries && c3.entries[c] == vc
  {
    LruDuas(a, b, va, vb);
    var c2 := Lru.Put(Lru.Put(Lru.New(2), a, va), b, vb);
    Lru.PutCheia(c2, c, vc);
  }

  /** Two `put`s of distinct keys into an empty cache of capacity two. */
  lemma LruDuas<V>(a: string, b: string, va: V, vb: V)
    requires a != b
    ensures Lru.Put(Lru.Put(Lru.New(2), a, va), b, vb) == Lru.LruCache(2, map[a := va, b := vb], [a, b])
  {
    var c0: Lru.LruCache<string, V> := Lru.New(2);
    Lru.PutNova(c0, a, va);
    var c1 := Lru.Put(c0, a, va);
    assert c1.order == [a];
    Lru.PutNova(c1, b, vb);
  }

  /** A hit promotes its query, so the other one is evicted instead. */
  method CacheLruPromove(a: string, b: string, c: string, va: seq<u32>, vb: seq<u32>, vc: seq<u32>)
    returns (ra: Option<seq<u32>>, rb: Option<seq<u32>>)
    requires a != b && b != c && a != c
    ensures ra == Some(va) && rb == None
  {
    var cache := DuasInsercoesLida(a, b, va, vb);
    DespejoAposPromocao(cache.cache, a, b, c, va, vb, vc);
    cache.Inserir(c, vc, 1);
    ra := cache.Obter(a, 2);
    rb := cache.Obter(b, 2);
  }

  /** `inserir` of `a` then `b` at instant 0 into a new cache of capacity
      two, then an `obter` of `a` at instant 1. */
  method DuasInsercoesLida(a: string, b: string, va: seq<u32>, vb: seq<u32>)
    returns (cache: CacheBusca)
    requires a != b
    ensures fresh(cache) && cache.Valid() && cache.tempoVida == 60
    ensures cache.cache.cap == 2 && cache.cache.order == [b, a]
    ensures cache.cache.entries == map[a := Entrada(va, 0), b := Entrada(vb, 0)]
  {
    cache := new CacheBusca(2, 60);
    cache.Inserir(a, va, 0);
    cache.Inserir(b, vb, 0);
    LruDuas(a, b, Entrada(va, 0), Entrada(vb, 0));
    LruPromove(a, b, Entrada(va, 0), Entrada(vb, 0));
    var _ := cache.Obter(a, 1);
  }

  /** With `b` least recent in a full cache of two, a `put` of `c` evicts
      `b`, keeping `a`. */
  lemma DespejoAposPromocao(m: Memoria, a: string, b: string, c: string, va: seq<u32>, vb: seq<u32>, vc: seq<u32>)
    requires Lru.Valid(m) && a != b && b != c && a != c
    requires m.cap == 2 && m.order == [b, a] && m.entries == map[a := Entrada(va, 0), b := Entrada(vb, 0)]
    ensures var m0 := Lru.Put(m, c, Entrada(vc, 1));
      a in m0.entries && m0.entries[a] == Entrada(va, 0) && b !in m0.entries
  {
    Lru.PutCheia(m, c, Entrada(vc, 1));
  }

  /** After `put(a)`, `put(b)` and a `get(a)`, `b` is the least recently
      used key. */
  lemma LruPromove<V>(a: string, b: string, va: V, vb: V)
    requires a != b
    ensures var c2 := Lru.Put(Lru.Put(Lru.New(2), a, va), b, vb);
      Lru.Get(c2, a).1.order == [b, a]
  {
    LruDuas(a, b, va, vb);
    var c2 := Lru.Put(Lru.Put(Lru.New(2), a, va), b, vb);
    assert Lru.Remove([b], a) == [b] + Lru.Remove([], a);
    assert Lru.Remove(c2.order, a) == [b];
  }

  /** After `limpar` nothing is cached. */
  method CacheLimpar(chave: string, v: seq<u32>) returns (tamanho: nat)
    ensures tamanho == 0
  {
    var cache := new CacheBusca(3, 60);
    cache.Inserir(chave, v, 0);
    cache.Limpar();
    tamanho := cache.Estatisticas();
  }

  // ---------------------------------------------------------------------
  // Recommendations

  /** Neighbours of the cart, without the cart: with 1 related to 2 and 3
      and 2 related to 3 and 4, the cart [1, 2] recommends 3 and 4. */
  method RecomendarCarrinho() returns (r: seq<u32>)
    ensures |r| == 2 && 3 in r && 4 in r
  {
    var grafo := new GrafoRecomendacao();
    grafo.AdicionarRelacao(1, [2, 3]);
    grafo.AdicionarRelacao(2, [3, 4]);
    RelacoesExemplo();
    RecomendadasExemplo(grafo.relacoes);
    r := grafo.RecomendarBaseadoCarrinho([1, 2]);
  }

  lemma RelacoesExemplo()
    ensures var rel := ComRelacao(ComRelacao(map[], 1, [2, 3]), 2, [3, 4]);
      1 in rel && 2 in rel && rel[1] == {2, 3} && rel[2] == {3, 4}
  {
    var xs: seq<u32>, ys: seq<u32> := [2, 3], [3, 4];
    assert Elements(xs) == {2, 3} && Elements(ys) == {3, 4};

  }

  lemma RecomendadasExemplo(rel: Relacoes)
    requires 1 in rel && 2 in rel && rel[1] == {2, 3} && rel[2] == {3, 4}
    ensures Recomendadas(rel, [1, 2]) == {3, 4} && |Recomendadas(rel, [1, 2])| == 2
  {
    assert Vizinhos(rel, [1, 2]) == {2, 3, 4} by {
      assert 2 in rel[1] && 3 in rel[1] && 4 in rel[2];
    }
    var carrinho: seq<u32> := [1, 2];
    assert Elements(carrinho) == {1, 2};
    var esperado: set<u32> := {3, 4};
    assert |esperado| == 2;
  }

  // ---------------------------------------------------------------------
  // Metrics

  /** The metrics test `test_registro_metricas`. */
  method RegistroMetricas() returns (consultas: u32, resultados: nat, tempo: nat)
    ensures consultas == 1 && resultados == 5 && tempo == 100
  {
    var m := new MetricasBusca();
    m.RegistrarConsulta(5, 100);
    consultas, resultados, tempo := m.consultasRealizadas, m.resultadosEncontrados, m.tempoResposta;
  }

  /** The metrics test `test_multiplas_metricas`: the last registration
      wins. */
  method MultiplasMetricas() returns (consultas: u32, resultados: nat)
    ensures consultas == 2 && resultados == 2
  {
    var m := new MetricasBusca();
    RegistrarTodas(m, [(1, 50), (2, 75)]);
    consultas, resultados := m.consultasRealizadas, m.resultadosEncontrados;
  }
}
