# megastore-search in Dafny

A model of the search core of `megastore-search`, a product-search service in
Rust, together with proofs about it. The model covers these parts:

- **Tokenizer** (`ProcessadorTexto`, module `Texto`).
  - `processar` lower-cases the text and splits it on whitespace. It then trims
    non-alphanumeric characters from both ends of each piece and drops empty
    pieces.
  - `processar_termo` lower-cases and trims whitespace only.
- **Inverted index** (`IndiceInverso`, module `Indexacao`). It keeps four maps
  from token to a set of ids: name, brand, category, and the combined text
  `"nome marca categoria"`. `buscar` is the OR of the query's tokens over the
  combined map.
- **Search engine** (`MotorBusca`, module `Motor`). It is a product store with
  a capacity, kept together with the index of the stored products.
- **Result cache** (`CacheBusca`, module `Cache`). It is an LRU map from a query
  to its result ids and insertion instant, and entries expire lazily.
  - The `lru` crate's behaviour that the cache relies on is modelled in module
    `Lru`: get promotes a key; put overwrites, appends or evicts the least
    recent key; pop; clear; len.
- **Recommendations** (`GrafoRecomendacao`, module `Recomendacao`). A relation
  from a product to related products, and the cart query over it.
- **Metrics** (`MetricasBusca`, module `Metricas`). A query counter plus the
  last query's figures.

Modules `Wrappers` (Option, Result, duplicate-free sequences) and `Modelos`
(`u32`, the `Produto` record) hold shared definitions. Module `Exemplos`
restates the repository's unit tests as methods and lemmas over the model.

Stateful objects are Dafny classes whose methods update their fields:
`IndiceInverso`, `MotorBusca`, `CacheBusca`, `GrafoRecomendacao` and
`MetricasBusca`. Most methods are proved against a specification function of
the old state: `Indexado` and `Inserido` for indexing, `Correspondencias` for
search, `Obtido`, `Lru.Put` and `Lru.Clear` for the cache, `ComRelacao` and
`Recomendadas` for recommendations. `MetricasBusca.RegistrarConsulta` and the
product store of `MotorBusca.AdicionarProduto` state their new fields
directly. The lemmas then prove the system's properties about those
functions. Loops in the source are methods with loop invariants: `InserirTokens`,
`Uniao`, `Projetar`, `Vizinhanca`, `Remover` and `ParaSequencia`.
`RegistrarTodas` is a client scenario, not a source loop: it stands for the
repeated `registrar_consulta` calls of the metrics tests, n registrations in a
row.

Character classes follow Rust's `char` methods. Whitespace uses the full
Unicode White_Space set. Letters, digits and case mapping are modelled on
Latin-1 (code points below 256). Time is a natural number of ticks passed in
as `now`.

## Model

| member | source | states |
|---|---|---|
| Texto.Lower | megastore-search/src/indexacao/texto.rs:9 | `to_lowercase` on Latin-1 keeps the length (its other properties are `LowerKeeps` and `LowerConcat`) |
| Texto.LowerKeeps | megastore-search/src/indexacao/texto.rs:9 | lower-casing gives a lower-case string of the same length, keeps whitespace where it was, and creates no letter or digit |
| Texto.SplitWhitespace | megastore-search/src/indexacao/texto.rs:10 | `split_whitespace` yields no more pieces than the text has characters |
| Texto.TrimMatches | megastore-search/src/indexacao/texto.rs:11 | the result of `trim_matches`/`trim` neither starts nor ends with a dropped character, and is empty exactly when every character is dropped |
| Texto.LeadingPadded | megastore-search/src/indexacao/texto.rs:11 | the leading run of dropped characters of `p + t` is exactly `p` when `t` starts with a kept character |
| Texto.TrailingPadded | megastore-search/src/indexacao/texto.rs:11 | the trailing run of dropped characters of `t + p` is exactly `p` when `t` ends with a kept character |
| Texto.TrimMatchesPadded | megastore-search/src/indexacao/texto.rs:11 | `trim_matches` removes exactly the surrounding runs: `p1 + t + p2` with dropped-only padding trims to `t`, inner characters kept |
| Texto.Tokens | megastore-search/src/indexacao/texto.rs:11-12 | the trim-and-filter stage yields at most one token per piece |
| Texto.Processar | megastore-search/src/indexacao/texto.rs:8-14 | `processar` yields no more tokens than the text has characters: each token uses up at least one of them (the token shape is `ProcessarTokens`) |
| Texto.ProcessarTokens | megastore-search/src/indexacao/texto.rs:8-14 | every token `processar` returns is non-empty, has no whitespace, is lower-case, and begins and ends with an alphanumeric character |
| Texto.PalavrasSemEspaco | megastore-search/src/indexacao/texto.rs:10 | every piece of `split_whitespace` is non-empty and whitespace-free; pieces of a lower-case text are lower-case |
| Texto.TokensValidos | megastore-search/src/indexacao/texto.rs:11-12 | trimming non-alphanumerics from whitespace-free lower-case pieces and dropping empty ones leaves only tokens |
| Texto.ProcessarTermo | megastore-search/src/indexacao/texto.rs:17-19 | the term is never longer than the input; an input without whitespace is only lower-cased, so its punctuation is kept |
| Texto.ProcessarTermoKeeps | megastore-search/src/indexacao/texto.rs:17-19 | the term is lower-case, has no whitespace at either end, and is empty exactly when the input is all whitespace |
| Texto.ProcessarTermoPadded | megastore-search/src/indexacao/texto.rs:17-19 | `processar_termo` removes exactly the surrounding whitespace: a term padded with whitespace gives its lower-cased core, inner whitespace and punctuation kept |
| Texto.LowerConcat | megastore-search/src/indexacao/texto.rs:9 | lower-casing distributes over concatenation |
| Texto.WordBeforeWhitespace | megastore-search/src/indexacao/texto.rs:10 | the first word of `a + [ws] + b` is the first word of `a` |
| Texto.SplitWhitespaceConcat | megastore-search/src/indexacao/texto.rs:10 | splitting `a`, a whitespace character and `b` gives the words of `a` followed by the words of `b` |
| Texto.TokensConcat | megastore-search/src/indexacao/texto.rs:11-13 | the trim-and-filter stage distributes over concatenation of piece lists |
| Texto.ProcessarConcat | megastore-search/src/indexacao/texto.rs:8-14 | `processar(a + " " + b) == processar(a) + processar(b)` |
| Texto.ProcessarTresCampos | megastore-search/src/indexacao/inverso.rs:31-32 | the tokens of the space-joined three fields are the three fields' tokens in order |
| Texto.SplitSemEspaco | megastore-search/src/indexacao/texto.rs:10 | a non-empty whitespace-free text is a single word |
| Texto.ProcessarToken | megastore-search/src/indexacao/texto.rs:8-14 | a token tokenizes to itself alone |
| Texto.ProcessarPalavra | megastore-search/src/indexacao/texto.rs:8-14 | a word whose lower-case form is a token tokenizes to that form alone |
| Texto.ProcessarPadded | megastore-search/src/indexacao/texto.rs:8-14 | `processar` strips only surrounding punctuation: a word whose lower-case form is a token, wrapped in whitespace-free non-alphanumeric characters, gives exactly that form |
| Texto.ProcessarJoin | megastore-search/src/indexacao/texto.rs:8-14 | tokenizing space-joined tokens gives them back |
| Texto.ProcessarVazio | megastore-search/src/indexacao/texto.rs:10-13 | the empty text has no tokens |
| Texto.ProcessarIdempotente | megastore-search/src/indexacao/texto.rs:8-14 | re-tokenizing the space-joined output of `processar` gives the same tokens |
| Texto.TokensSemAlfanumerico | megastore-search/src/indexacao/texto.rs:10-13 | a text without letters or digits leaves no piece after trimming |
| Texto.ProcessarSemAlfanumerico | megastore-search/src/indexacao/texto.rs:8-14 | a text without letters or digits has no tokens |
| Texto.ProcessarSoEspaco | megastore-search/src/indexacao/texto.rs:10-13 | an empty or whitespace-only text has no tokens |
| Texto.ProcessarTermoToken | megastore-search/src/indexacao/texto.rs:17-19 | `processar_termo` of a token is the token |
| Indexacao.IndiceInverso.constructor | megastore-search/src/indexacao/inverso.rs:14-22 | the four maps start empty |
| Indexacao.IndiceInverso.IndexarProduto | megastore-search/src/indexacao/inverso.rs:24-33 | the new state is `Indexado(old state, p)`: each field's tokens go to its map and the combined text's tokens to the text map |
| Indexacao.IndiceInverso.IndexarTexto | megastore-search/src/indexacao/inverso.rs:35-45 | the map returned is the input map with `id` added under every token of the text |
| Indexacao.InserirTokens | megastore-search/src/indexacao/inverso.rs:42-44 | the loop inserting `id` under each token computes `Inserido(indice, tokens, id)` |
| Indexacao.IndiceInverso.Buscar | megastore-search/src/indexacao/inverso.rs:53-64 | the result is the union of the text map's sets over the query's tokens; the index is not changed |
| Indexacao.Uniao | megastore-search/src/indexacao/inverso.rs:55-61 | the accumulating loop computes that union, absent tokens contributing nothing |
| Indexacao.InseridoNada | megastore-search/src/indexacao/inverso.rs:41-44 | inserting no token leaves the map as it was |
| Indexacao.InseridoPasso | megastore-search/src/indexacao/inverso.rs:42-43 | one more token adds `id` under that token (creating the set when absent) and changes nothing else |
| Indexacao.InseridoSoAcrescenta | megastore-search/src/indexacao/inverso.rs:43 | indexing only adds: no key or id is lost, keys outside the tokens are unchanged, and the only id added is `id` |
| Indexacao.InseridoIdempotente | megastore-search/src/indexacao/inverso.rs:43 | inserting the same tokens and id twice equals inserting them once |
| Indexacao.InseridoIdsEm | megastore-search/src/indexacao/inverso.rs:43 | when every set lies within `ids` and `id` is in `ids`, that stays true |
| Indexacao.InseridoChavesSaoTokens | megastore-search/src/indexacao/inverso.rs:41-43 | every key of a map built by `indexar_texto` is a `processar` token |
| Indexacao.TokensTextoCompleto | megastore-search/src/indexacao/inverso.rs:31 | a token of the combined text is exactly a token of the name, the brand or the category |
| Indexacao.IndexadoCobre | megastore-search/src/indexacao/inverso.rs:26-32 | after indexing `p`, `p.id` is under every token of each field in that field's map, and under every token of any field in the text map |
| Indexacao.IndexadoEstende | megastore-search/src/indexacao/inverso.rs:24-33 | indexing a product only adds to each of the four maps |
| Indexacao.IndexadoIdempotente | megastore-search/src/indexacao/inverso.rs:24-33 | indexing the same product twice equals indexing it once |
| Indexacao.CobrePreservado | megastore-search/src/indexacao/inverso.rs:24-33 | indexing another product keeps every earlier product findable |
| Indexacao.IndexadoIdsEm | megastore-search/src/indexacao/inverso.rs:24-33 | indexing a product whose id is in `ids` keeps every indexed id in `ids` |
| Indexacao.CorrespondenciasEm | megastore-search/src/indexacao/inverso.rs:57-60 | an id is found exactly when it is under some token of the query |
| Indexacao.CorrespondenciasConcat | megastore-search/src/indexacao/inverso.rs:57-60 | the union over two token lists is the union of the two unions |
| Indexacao.BuscaOu | megastore-search/src/indexacao/inverso.rs:53-64 | searching `q1 + " " + q2` returns the union of searching `q1` and `q2` (OR semantics) |
| Indexacao.BuscaVazia | megastore-search/src/indexacao/inverso.rs:53-64 | an empty index, or a query without letters or digits, finds nothing |
| Indexacao.BuscaEncontra | megastore-search/src/indexacao/inverso.rs:53-64 | after indexing `p`, a query sharing a token with any of its three fields finds `p.id` |
| Indexacao.BuscarNoIndice | megastore-search/src/indexacao/inverso.rs:48-51 | looking a term up in one map is a search of that map for the single token `processar_termo` gives, absent keys giving the empty set |
| Indexacao.BuscarNoIndiceEncontra | megastore-search/src/indexacao/inverso.rs:48-51 | after indexing `p`, looking up a token of its name in the name map finds `p.id` |
| Indexacao.BuscarNoIndicePontuacao | megastore-search/src/indexacao/inverso.rs:48-51 | a term whose last character is punctuation never matches a map built by `indexar_texto`, because `processar_termo` keeps the punctuation that `processar` strips |
| Motor.MotorBusca.constructor | megastore-search/src/busca/motor.rs:12-18 | an empty store and an empty index, with the given capacity |
| Motor.MotorBusca.AdicionarProduto | megastore-search/src/busca/motor.rs:20-30 | the add fails iff the store already holds `capacidade_maxima` products; a failure changes nothing; a success stores `p` under its id and indexes it; the count grows only for a new id; the invariant holds |
| Motor.MotorBusca.Buscar | megastore-search/src/busca/motor.rs:32-37 | the stored products whose ids the index returns, each once, with none dropped |
| Motor.Projetar | megastore-search/src/busca/motor.rs:34-36 | the `filter_map` loop yields exactly the stored products under the given ids, each once |
| Motor.MotorBusca.ObterProdutoPorId | megastore-search/src/busca/motor.rs:39-41 | `Some` exactly when the id is stored, holding that product, whose id is the one asked for |
| Motor.MotorBusca.ObterTodosProdutos | megastore-search/src/busca/motor.rs:43-45 | every stored product once; the length is `total_produtos()` |
| Motor.MotorBusca.TotalProdutos | megastore-search/src/busca/motor.rs:47-49 | the number of stored products, never above the capacity |
| Motor.BuscaArmazenada | megastore-search/src/busca/motor.rs:26-27 | when the index holds only stored ids, every search result is stored |
| Motor.ArmazenarValido | megastore-search/src/busca/motor.rs:25-29 | indexing then storing `p` keeps the invariant that every indexed id is stored and every stored product is findable |
| Lru.New | megastore-search/src/busca/cache.rs:14-16 | an empty, valid cache of the given positive capacity |
| Lru.Len | megastore-search/src/busca/cache.rs:44 | the number of entries, never above the capacity |
| Lru.Remove | megastore-search/src/busca/cache.rs:23 | removing a key from the recency order keeps every other key |
| Lru.RemoveDistinct | megastore-search/src/busca/cache.rs:23 | removal keeps the order duplicate-free and shortens it by one exactly when the key was there |
| Lru.RemoveConcat | megastore-search/src/busca/cache.rs:23 | removing a key from a joined order removes it from each part |
| Lru.RemoveAbsent | megastore-search/src/busca/cache.rs:27 | removing a key that is not in the order changes nothing |
| Lru.RemovePromoted | megastore-search/src/busca/cache.rs:23 | moving a key to the most recent end leaves the other keys in their order |
| Lru.Get | megastore-search/src/busca/cache.rs:23 | a hit returns the stored value and makes the key most recent, the other keys keeping their relative recency order; a miss changes nothing |
| Lru.GetMantemVitima | megastore-search/src/busca/cache.rs:23 | a hit on any key but the least recently used one leaves that key next in line for eviction |
| Lru.Put | megastore-search/src/busca/cache.rs:34 | the key holds the new value and is most recent; other kept keys keep their values; overwriting keeps the size and the other keys' recency order; a new key grows a non-full cache by one; in a full cache it evicts the least recent key |
| Lru.PutNova | megastore-search/src/busca/cache.rs:34 | a new key in a non-full cache is appended as most recent |
| Lru.PutExistente | megastore-search/src/busca/cache.rs:34 | putting a stored key again moves it to the most recent end, the others keeping their order, and replaces its value |
| Lru.PutCheia | megastore-search/src/busca/cache.rs:34 | a new key in a full cache replaces the least recent one |
| Lru.Pop | megastore-search/src/busca/cache.rs:27 | removes the key and returns its value if present; the size drops by one exactly then; the remaining keys keep their recency order |
| Lru.Clear | megastore-search/src/busca/cache.rs:39 | no entries, same capacity |
| Cache.Decorrido | megastore-search/src/busca/cache.rs:24 | the elapsed time since an instant, saturating at zero |
| Cache.Obtido | megastore-search/src/busca/cache.rs:21-30 | a hit iff the key is present and younger than `tempo_vida`; a hit returns its ids and promotes it; an expired entry is removed so the size drops by one; an absent key leaves the cache unchanged; in every case the other keys keep their recency order |
| Cache.CacheBusca.constructor | megastore-search/src/busca/cache.rs:12-19 | a positive capacity is required (zero panics); the cache starts empty |
| Cache.CacheBusca.Obter | megastore-search/src/busca/cache.rs:21-30 | the result and the new cache are `Obtido(old cache, chave, now, tempo_vida)` |
| Cache.CacheBusca.Inserir | megastore-search/src/busca/cache.rs:32-35 | the new cache is a `put` of the ids stamped with `now` |
| Cache.CacheBusca.Limpar | megastore-search/src/busca/cache.rs:37-40 | the new cache is the old one cleared |
| Cache.CacheBusca.Estatisticas | megastore-search/src/busca/cache.rs:42-45 | the number of cached queries, never above the capacity |
| Cache.InserirObter | megastore-search/src/busca/cache.rs:24-34 | ids inserted at `t` are returned by an `obter` less than `tempo_vida` later |
| Cache.InserirExpira | megastore-search/src/busca/cache.rs:24-34 | an `obter` at `tempo_vida` or later misses, removes the entry and shrinks the cache by one |
| Cache.InserirOutra | megastore-search/src/busca/cache.rs:34 | inserting another key into a non-full cache keeps an existing entry |
| Recomendacao.GrafoRecomendacao.constructor | megastore-search/src/recomendacao/mod.rs:8-12 | an empty relation |
| Recomendacao.GrafoRecomendacao.AdicionarRelacao | megastore-search/src/recomendacao/mod.rs:14-17 | the set under the id (empty when absent) is extended with the given ids |
| Recomendacao.GrafoRecomendacao.RecomendarBaseadoCarrinho | megastore-search/src/recomendacao/mod.rs:19-36 | exactly the neighbours of the cart's items that are not in the cart, each once; an empty cart gives nothing |
| Recomendacao.Vizinhanca | megastore-search/src/recomendacao/mod.rs:24-28 | the first loop computes the union of the cart items' sets |
| Recomendacao.Remover | megastore-search/src/recomendacao/mod.rs:31-33 | the second loop removes exactly the cart's ids |
| Recomendacao.ParaSequencia | megastore-search/src/recomendacao/mod.rs:35 | collecting a set lists each element once |
| Recomendacao.VizinhosConcat | megastore-search/src/recomendacao/mod.rs:24-28 | the neighbours of two carts joined are the union of their neighbours |
| Recomendacao.ComRelacaoEstende | megastore-search/src/recomendacao/mod.rs:14-17 | adding a relation only adds: every related id stays, the new ids are under the id, other keys are unchanged |
| Recomendacao.ComRelacaoIdempotente | megastore-search/src/recomendacao/mod.rs:16 | adding the same relation twice equals adding it once |
| Recomendacao.ComRelacaoAcumula | megastore-search/src/recomendacao/mod.rs:15-16 | two additions for one id equal one addition of both lists |
| Recomendacao.ComRelacaoComuta | megastore-search/src/recomendacao/mod.rs:14-17 | the order of additions does not matter |
| Recomendacao.RecomendadasAposRelacao | megastore-search/src/recomendacao/mod.rs:14-36 | relating a cart item adds exactly its new ids outside the cart to the recommendations; relating any other item changes nothing |
| Metricas.MetricasBusca.constructor | megastore-search/src/metricas/mod.rs:10-16 | every field is zero |
| Metricas.MetricasBusca.RegistrarConsulta | megastore-search/src/metricas/mod.rs:18-22 | the counter grows by one (below `u32::MAX`); the result count and the time are overwritten |
| Metricas.RegistrarTodas | megastore-search/src/metricas/mod.rs:36-55 | a client registering n queries in a row, as the tests do: the counter grows by n, and the last one's figures win |
| Exemplos.ProcessarExemplo | megastore-search/src/indexacao/texto.rs:8-14 | "Smartphone Samsung!" gives the tokens "smartphone" and "samsung" |
| Exemplos.ProcessarTermoSamsung | megastore-search/src/indexacao/texto.rs:17-19 | `processar_termo("samsung!")` keeps the '!' |
| Exemplos.ProcessarCoop | megastore-search/src/indexacao/texto.rs:8-14 | "(co-op)" gives the single token "co-op", its inner hyphen kept |
| Exemplos.ProcessarTermoAbc | megastore-search/src/indexacao/texto.rs:17-19 | `processar_termo(" Ab c ")` is "ab c", its inner space kept |
| Exemplos.IndexacaoBusca | megastore-search/src/indexacao/inverso.rs:72-91 | the indexed product is found by "samsung" and by "eletrônicos" |
| Exemplos.BuscaInexistente | megastore-search/src/indexacao/inverso.rs:93-98 | a new index finds nothing |
| Exemplos.AdicionarBuscar | megastore-search/src/busca/motor.rs:57-74 | after adding a product named "Test Product", searching "test" returns exactly that product |
| Exemplos.CapacidadeMaxima | megastore-search/src/busca/motor.rs:76-84 | with capacity one, the first add succeeds and the second fails with the capacity message |
| Exemplos.CacheExpira | megastore-search/src/busca/cache.rs:21-30 | an entry is returned while fresh; once expired it is missed and removed |
| Exemplos.CacheLru | megastore-search/src/busca/cache.rs:32-35 | with capacity two, a third query evicts the first |
| Exemplos.CacheLruPromove | megastore-search/src/busca/cache.rs:21-35 | a hit on the first query makes the second the one evicted |
| Exemplos.CacheLimpar | megastore-search/src/busca/cache.rs:37-45 | after `limpar`, `estatisticas` is zero |
| Exemplos.RecomendarCarrinho | megastore-search/src/recomendacao/mod.rs:19-36 | with 1 related to {2, 3} and 2 related to {3, 4}, the cart [1, 2] recommends exactly 3 and 4 |
| Exemplos.RegistroMetricas | megastore-search/src/metricas/mod.rs:36-44 | one registration gives counter 1, 5 results and time 100 |
| Exemplos.MultiplasMetricas | megastore-search/src/metricas/mod.rs:46-55 | two registrations give counter 2 and the last result count |

## Left out

- `Produto.preco` (an `f64`) is not modelled, because no core operation reads it. `descricao` is carried but never indexed, as in the source.
- Unicode beyond Latin-1 is not modelled: letters, digits and case mapping above code point 255 are not covered. Multi-character lower-case expansions (such as that of 'İ') do not occur in Latin-1.
- The `Arc<RwLock<…>>` around the cache is not modelled. Every operation holds the lock for its whole body, so the cache is modelled single-threaded; lock poisoning (`unwrap` panics) is left out.
- The real clock (`Instant::now`, `elapsed`) is replaced by a `now` parameter in ticks and `tempo_vida` in the same unit.
- The `lru` crate is modelled by its observable behaviour (a key sequence, least recent first, plus a map), not by its linked-list implementation.
- Iteration order of `HashMap`/`HashSet` is not modelled. `buscar`, `obter_todos_produtos` and `recomendar_baseado_carrinho` are specified as duplicate-free sequences with given elements, in any order.
- Returning references (`Vec<&Produto>`, `Option<&Produto>`) is modelled as returning the product values.
- `exibir_metricas` is left out, because it only prints.
- `src/main.rs` (a demo driver) is not part of this model. Neither is `src/recomendacao/grafo.rs`, which the crate does not compile in.
- `Metricas.MetricasBusca.RegistrarConsulta`: requires the counter to be below `u32::MAX`. The model does not cover the overflow, which panics in a debug build and wraps in a release build.
- `Indexacao.IndiceInverso.IndexarTexto`: the source updates the map it is given in place. The model returns the updated map, and `IndexarProduto` assigns it to the field.
- `Exemplos.CapacidadeMaxima`: holds for any two products, where the source test uses two fixed ones; it states `r1.Ok?` rather than equality with `Ok(())`.
- `Exemplos.AdicionarBuscar`: holds for any product named "Test Product", where the source test fixes the other fields too.
- `Exemplos.CacheLru`, `Exemplos.CacheLruPromove` and `Exemplos.CacheExpira` are scenarios of the cache's behaviour; the repository has no cache tests.
- `Exemplos.ProcessarCoop` and `Exemplos.ProcessarTermoAbc` are illustrations of the trimming rules; the repository has no tests with these inputs.
