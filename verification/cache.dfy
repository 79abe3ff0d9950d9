/** The result cache of `busca/cache.rs` (`CacheBusca`): an LRU map from a
    query to its result ids and the instant they were stored, whose entries
    expire lazily once they are `tempo_vida` old. Time is a natural number
    of clock ticks passed in as `now`; the lock around the cache is not
    modelled, since every operation takes it for its whole duration. */
module Cache {
  import opened Wrappers
  import opened Modelos
  import Lru

  /** The cached value: the result ids and the instant of `inserir`. */
  datatype Entrada = Entrada(resultados: seq<u32>, timestamp: nat)

  type Memoria = Lru.LruCache<string, Entrada>

  /** `Instant::elapsed` read at `now` for an instant taken at `ts`: the
      time since `ts`, or zero when `now` is earlier (it saturates). */
  function Decorrido(ts: nat, now: nat): (d: nat)
    ensures d <= now
    ensures ts <= now ==> ts + d == now
    ensures now < ts ==> d == 0
  {
    if ts <= now then now - ts else 0
  }

  /** An entry younger than `tempoVida` is still valid. */
  predicate Fresca(e: Entrada, now: nat, tempoVida: nat) {
    Decorrido(e.timestamp, now) < tempoVida
  }

  /** What `obter` returns and the cache it leaves: a present, fresh entry
      is returned and promoted; a present, expired entry is removed; an
      absent key leaves the cache as it was. Either way the other keys keep
      their recency order. */
  function Obtido(c: Memoria, chave: string, now: nat, tempoVida: nat): (r: (Option<seq<u32>>, Memoria))
    requires Lru.Valid(c)
    ensures Lru.Valid(r.1) && r.1.cap == c.cap
    ensures r.0.Some? <==> chave in c.entries && Fresca(c.entries[chave], now, tempoVida)
    ensures r.0.Some? ==> r.0.value == c.entries[chave].resultados
    ensures r.0.Some? ==> r.1.entries == c.entries && r.1.order[|r.1.order| - 1] == chave
    ensures chave in c.entries && r.0.None? ==>
              r.1.entries.Keys == c.entries.Keys - {chave} && Lru.Len(r.1) == Lru.Len(c) - 1
    ensures r.0.Some? ==> Lru.Remove(r.1.order, chave) == Lru.Remove(c.order, chave)
    ensures r.0.None? ==> r.1.order == Lru.Remove(c.order, chave)
    ensures chave !in c.entries ==> r.1 == c
    ensures forall k :: k in r.1.entries ==> k in c.entries && r.1.entries[k] == c.entries[k]
  {
    var (v, c1) := Lru.Get(c, chave);
    if v.Some? && Fresca(v.value, now, tempoVida) then (Some(v.value.resultados), c1)
    else if v.Some? then (None, Lru.Pop(c1, chave).1)
    else
      Lru.RemoveAbsent(c.order, chave);
      (None, c1)
  }

  class CacheBusca {
    var cache: Memoria
    const tempoVida: nat

    ghost predicate Valid()
      reads this
    {
      Lru.Valid(cache)
    }

    /** `CacheBusca::new`: `NonZeroUsize::new(capacidade).unwrap()` panics
        on a zero capacity, so callers must pass a positive one. */
    constructor (capacidade: nat, tempoVida: nat)
      requires capacidade > 0
      ensures Valid()
      ensures cache == Lru.New(capacidade)
      ensures this.tempoVida == tempoVida
    {
      cache := Lru.New(capacidade);
      this.tempoVida := tempoVida;
    }

    /** `CacheBusca::obter`: `get` (which promotes), then `pop` when the
        entry found has expired. */
    method Obter(chave: string, now: nat) returns (r: Option<seq<u32>>)
      requires Valid()
      modifies this
      ensures Valid()
      ensures (r, cache) == Obtido(old(cache), chave, now, tempoVida)
    {
      var (v, c1) := Lru.Get(cache, chave);
      cache := c1;
      if v.Some? {
        if Decorrido(v.value.timestamp, now) < tempoVida {
          return Some(v.value.resultados);
        }
        var (_, c2) := Lru.Pop(cache, chave);
        cache := c2;
      }
      r := None;
    }

    /** `CacheBusca::inserir`: `put` of the results stamped with `now`. */
    method Inserir(chave: string, resultados: seq<u32>, now: nat)
      requires Valid()
      modifies this
      ensures Valid()
      ensures cache == Lru.Put(old(cache), chave, Entrada(resultados, now))
    {
      cache := Lru.Put(cache, chave, Entrada(resultados, now));
    }

    /** `CacheBusca::limpar`. */
    method Limpar()
      requires Valid()
      modifies this
      ensures Valid()
      ensures cache == Lru.Clear(old(cache))
    {
      cache := Lru.Clear(cache);
    }

    /** `CacheBusca::estatisticas`: the number of cached queries, never
        more than the capacity. */
    function Estatisticas(): (n: nat)
      reads this
      ensures n == Lru.Len(cache)
      ensures Valid() ==> n <= cache.cap
    {
      Lru.Len(cache)
    }
  }

  // ---------------------------------------------------------------------
  // Lemmas

  /** Results stored by `inserir` at `t` are returned by an `obter` at any
      `now` less than `tempoVida` later. */
  lemma InserirObter(c: Memoria, chave: string, v: seq<u32>, t: nat, now: nat, tempoVida: nat)
    requires Lru.Valid(c)
    requires t <= now < t + tempoVida
    ensures Obtido(Lru.Put(c, chave, Entrada(v, t)), chave, now, tempoVida).0 == Some(v)
  {
  }

  /** An `obter` at `tempoVida` or more after the `inserir` misses and
      leaves the cache one entry smaller. */
  lemma InserirExpira(c: Memoria, chave: string, v: seq<u32>, t: nat, now: nat, tempoVida: nat)
    requires Lru.Valid(c)
    requires t + tempoVida <= now
    ensures var c1 := Lru.Put(c, chave, Entrada(v, t));
      var r := Obtido(c1, chave, now, tempoVida);
      r.0 == None && chave !in r.1.entries && Lru.Len(r.1) == Lru.Len(c1) - 1
  {
  }

  /** A `put` of another key into a cache with room keeps an entry, so a
      fresh entry stays a hit. */
  lemma InserirOutra(c: Memoria, chave: string, outra: string, e: Entrada)
    requires Lru.Valid(c)
    requires chave != outra && chave in c.entries && Lru.Len(c) < c.cap
    ensures var c1 := Lru.Put(c, outra, e);
      chave in c1.entries && c1.entries[chave] == c.entries[chave]
  {
  }
}
