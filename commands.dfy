/**
 The REPL commands that change state: the cache-through fetch (`pokeRequest`),
 paging through location areas forwards and backwards (`commandMap`,
 `commandMapb`), catching a creature (`commandCatch`) and looking one up
 (`commandInspect`). The network, the JSON decoder and the random source are
 parameters; printing is replaced by the value the command would print.
 */
module Commands {
  import opened Wrappers
  import opened PokeCache

  const LocationAreaUrl := "https://pokeapi.co/api/v2/location-area/"
  const PokemonUrl := "https://pokeapi.co/api/v2/pokemon/"

  /** Why a command stops early: `http.Get` failed, reading the body failed, or
      the body did not decode. */
  datatype Error = GetFailed | ReadFailed | DecodeFailed

  /** What the network gives for one URL. */
  datatype Response = Body(bytes: Bytes) | GetError | ReadError

  type Server = string -> Response

  /** The bytes `pokeRequest` returns: the cached value on a hit, otherwise the
      fetched body or the fetch's error. */
  function Request(m: Entries, url: string, server: Server): Result<Bytes, Error>
  {
    if url in m then Ok(m[url].val)
    else match server(url)
      case Body(b) => Ok(b)
      case GetError => Err(GetFailed)
      case ReadError => Err(ReadFailed)
  }

  /** The cache entries after `pokeRequest`: a freshly fetched body is stored
      under its URL, stamped `now`. */
  function AfterRequest(m: Entries, url: string, server: Server, now: int): Entries
  {
    if url !in m && server(url).Body? then m[url := Entry(now, server(url).bytes)] else m
  }

  /** On a hit the network is not consulted and the cache is unchanged. */
  lemma HitDoesNotFetch(m: Entries, url: string, server: Server, other: Server, now: int)
    requires url in m
    ensures Request(m, url, server) == Request(m, url, other) == Ok(m[url].val)
    ensures AfterRequest(m, url, server, now) == m
  {
  }

  /** After a successful request the URL is cached, so the next request for it
      hits and returns the same bytes whatever the network would now say. */
  lemma SecondRequestHits(m: Entries, url: string, server: Server, later: Server, now: int)
    requires Request(m, url, server).Ok?
    ensures url in AfterRequest(m, url, server, now)
    ensures Request(AfterRequest(m, url, server, now), url, later) == Request(m, url, server)
  {
  }

  /** A failed fetch leaves the cache unchanged, and a request only ever touches
      the entry of its own URL. */
  lemma RequestTouchesOnlyItsUrl(m: Entries, url: string, server: Server, now: int)
    ensures Request(m, url, server).Err? ==> AfterRequest(m, url, server, now) == m
    ensures forall k :: k != url ==>
      (k in AfterRequest(m, url, server, now) <==> k in m) &&
      (k in m ==> AfterRequest(m, url, server, now)[k] == m[k])
  {
  }

  /** `pokeRequest`: answer from the cache when possible, otherwise fetch and
      cache the body. */
  method PokeRequest(url: string, cache: Cache, server: Server, now: int) returns (r: Result<Bytes, Error>)
    modifies cache
    ensures r == Request(old(cache.entries), url, server)
    ensures cache.entries == AfterRequest(old(cache.entries), url, server, now)
  {
    var cd, cached := cache.Get(url);
    if cached {
      return Ok(cd);
    }
    match server(url)
    case GetError =>
      return Err(GetFailed);
    case ReadError =>
      return Err(ReadFailed);
    case Body(body) =>
      cache.Add(url, body, now);
      return Ok(body);
  }

  /** The outcome of decoding what a request returned. */
  function Decoded<T>(got: Result<Bytes, Error>, decode: Bytes -> Option<T>): Result<T, Error>
  {
    match got
    case Err(e) => Err(e)
    case Ok(b) =>
      match decode(b)
      case None => Err(DecodeFailed)
      case Some(v) => Ok(v)
  }

  /** One decoded page of location areas: its links and the names it lists. */
  datatype Page = Page(next: string, previous: string, names: seq<string>)

  /** The paging links kept between commands. */
  datatype Paging = Paging(next: string, previous: string)

  /** An empty link stands for the first page of location areas. */
  function OrFirst(url: string): string
  {
    if url == "" then LocationAreaUrl else url
  }

  /** The links after `map`: the empty `next` is defaulted before the fetch; a
      decoded page then supplies both links, an empty `previous` defaulting to
      the first page. */
  function AfterMap(p: Paging, d: Result<Page, Error>): Paging
  {
    match d
    case Ok(page) => Paging(page.next, OrFirst(page.previous))
    case Err(_) => Paging(OrFirst(p.next), p.previous)
  }

  /** The links after `mapb`: the empty `previous` is defaulted before the fetch;
      a decoded page then supplies both links verbatim. */
  function AfterMapb(p: Paging, d: Result<Page, Error>): Paging
  {
    match d
    case Ok(page) => Paging(page.next, page.previous)
    case Err(_) => Paging(p.next, OrFirst(p.previous))
  }

  /** What a paging command prints: the names of the page, or the error. */
  function Listed(d: Result<Page, Error>): Result<seq<string>, Error>
  {
    match d
    case Ok(page) => Ok(page.names)
    case Err(e) => Err(e)
  }

  /** Facts of the paging state machine: after a successful `map` the backward
      link is never empty, so the next `mapb` fetches exactly the page's
      `previous` link, or the first page when the page had none; a failure keeps
      only the defaulting, so repeating a failed command changes nothing more. */
  lemma PagingSteps(p: Paging, page: Page, e: Error, e': Error)
    ensures AfterMap(p, Ok(page)).previous != ""
    ensures OrFirst(AfterMap(p, Ok(page)).previous) == (if page.previous == "" then LocationAreaUrl else page.previous)
    ensures AfterMap(AfterMap(p, Err(e)), Err(e')) == AfterMap(p, Err(e))
    ensures AfterMapb(AfterMapb(p, Err(e)), Err(e')) == AfterMapb(p, Err(e))
  {
  }

  /** The REPL's paging configuration, updated in place by `map` and `mapb`. */
  class Config {
    var next: string
    var previous: string

    /** Both links start empty. */
    constructor ()
      ensures next == "" && previous == ""
    {
      next, previous := "", "";
    }

    /** `commandMap`: fetch the page at `next` (the first page when `next` is
        empty), then take the page's links. */
    method CommandMap(cache: Cache, server: Server, now: int, decode: Bytes -> Option<Page>)
      returns (r: Result<seq<string>, Error>)
      modifies this, cache
      ensures var url := OrFirst(old(next));
              var d := Decoded(Request(old(cache.entries), url, server), decode);
              && cache.entries == AfterRequest(old(cache.entries), url, server, now)
              && Paging(next, previous) == AfterMap(Paging(old(next), old(previous)), d)
              && r == Listed(d)
    {
      if next == "" {
        next := LocationAreaUrl;
      }
      var body := PokeRequest(next, cache, server, now);
      if body.Err? {
        return Err(body.error);
      }
      var page := decode(body.value);
      if page.None? {
        return Err(DecodeFailed);
      }
      next := page.value.next;
      if page.value.previous == "" {
        previous := LocationAreaUrl;
      } else {
        previous := page.value.previous;
      }
      r := Ok(page.value.names);
    }

    /** `commandMapb`: fetch the page at `previous` (the first page when
        `previous` is empty), then copy the page's links. */
    method CommandMapb(cache: Cache, server: Server, now: int, decode: Bytes -> Option<Page>)
      returns (r: Result<seq<string>, Error>)
      modifies this, cache
      ensures var url := OrFirst(old(previous));
              var d := Decoded(Request(old(cache.entries), url, server), decode);
              && cache.entries == AfterRequest(old(cache.entries), url, server, now)
              && Paging(next, previous) == AfterMapb(Paging(old(next), old(previous)), d)
              && r == Listed(d)
    {
      if previous == "" {
        previous := LocationAreaUrl;
      }
      var body := PokeRequest(previous, cache, server, now);
      if body.Err? {
        return Err(body.error);
      }
      var page := decode(body.value);
      if page.None? {
        return Err(DecodeFailed);
      }
      previous := page.value.previous;
      next := page.value.next;
      r := Ok(page.value.names);
    }
  }

  /** A decoded creature record. */
  datatype Pokemon = Pokemon(baseExperience: int, height: int, weight: int,
                             stats: seq<(string, int)>, types: seq<string>)

  /** What a catch attempt reports. `IntnPanic` is the panic of `rand.Intn` on a
      base experience that is not positive. */
  datatype CatchOutcome = Caught | Escaped | Failed(error: Error) | IntnPanic

  /** The collection after a throw with roll `chance`: an already-caught name is
      left alone; otherwise the creature is added only when the roll exceeds half
      its base experience (integer division). */
  function CatchDecision(caught: map<string, Pokemon>, name: string, pok: Pokemon, chance: int): map<string, Pokemon>
    requires 0 <= chance < pok.baseExperience
  {
    if name in caught then caught
    else if chance > pok.baseExperience / 2 then caught[name := pok]
    else caught
  }

  /** A throw only ever adds `name`, never changes a caught entry, and adds it
      exactly when it was missing and the roll exceeds half the base experience. */
  lemma CatchOnlyAdds(caught: map<string, Pokemon>, name: string, pok: Pokemon, chance: int)
    requires 0 <= chance < pok.baseExperience
    ensures caught.Keys <= CatchDecision(caught, name, pok, chance).Keys <= caught.Keys + {name}
    ensures forall k :: k in caught ==> CatchDecision(caught, name, pok, chance)[k] == caught[k]
    ensures name !in caught ==>
      (name in CatchDecision(caught, name, pok, chance) <==> chance > pok.baseExperience / 2)
  {
  }

  /** How many of the rolls `0 .. n - 1` make a throw add `name`. */
  function Winning(caught: map<string, Pokemon>, name: string, pok: Pokemon, n: nat): nat
    requires n <= pok.baseExperience
  {
    if n == 0 then 0
    else Winning(caught, name, pok, n - 1) + (if name in CatchDecision(caught, name, pok, n - 1) then 1 else 0)
  }

  lemma {:induction false} WinningBelow(caught: map<string, Pokemon>, name: string, pok: Pokemon, n: nat)
    requires name !in caught
    requires n <= pok.baseExperience
    ensures var h := pok.baseExperience / 2;
            Winning(caught, name, pok, n) == if n <= h + 1 then 0 else n - h - 1
  {
    if n > 0 {
      WinningBelow(caught, name, pok, n - 1);
    }
  }

  /** Of the `b` equally likely rolls of `rand.Intn(b)`, exactly `(b - 1) / 2`
      make a throw at a name not yet caught succeed: a catch always succeeds with
      probability below one half, and a creature whose base experience is 1 or 2
      can never be caught. */
  lemma CatchOdds(caught: map<string, Pokemon>, name: string, pok: Pokemon)
    requires name !in caught
    requires pok.baseExperience > 0
    ensures var b := pok.baseExperience;
            && Winning(caught, name, pok, b) == (b - 1) / 2
            && 2 * Winning(caught, name, pok, b) < b
            && (Winning(caught, name, pok, b) == 0 <==> b <= 2)
  {
    WinningBelow(caught, name, pok, pok.baseExperience);
  }

  /** The collection of caught creatures, updated in place by `catch`. */
  class Pokedex {
    var caught: map<string, Pokemon>

    constructor ()
      ensures caught == map[]
    {
      caught := map[];
    }

    /** `commandCatch`: fetch and decode the creature, roll
        `draw(baseExperience)` (which is `rand.Intn`), and record the creature
        as `CatchDecision` says. */
    method Catch(name: string, cache: Cache, server: Server, now: int,
                 decode: Bytes -> Option<Pokemon>, draw: int -> int)
      returns (r: CatchOutcome)
      requires forall n :: 0 < n ==> 0 <= draw(n) < n
      modifies this, cache
      ensures var url := PokemonUrl + name;
              var d := Decoded(Request(old(cache.entries), url, server), decode);
              && cache.entries == AfterRequest(old(cache.entries), url, server, now)
              && match d
                 case Err(e) => r == Failed(e) && caught == old(caught)
                 case Ok(pok) =>
                   if pok.baseExperience <= 0 then r == IntnPanic && caught == old(caught)
                   else
                     && caught == CatchDecision(old(caught), name, pok, draw(pok.baseExperience))
                     && r == (if name in caught then Caught else Escaped)
    {
      var body := PokeRequest(PokemonUrl + name, cache, server, now);
      if body.Err? {
        return Failed(body.error);
      }
      var decoded := decode(body.value);
      if decoded.None? {
        return Failed(DecodeFailed);
      }
      var pok := decoded.value;
      if pok.baseExperience <= 0 {
        return IntnPanic;
      }
      var chance := draw(pok.baseExperience);
      if name in caught {
        r := Caught;
      } else if chance > pok.baseExperience / 2 {
        caught := caught[name := pok];
        r := Caught;
      } else {
        r := Escaped;
      }
    }

    /** `commandInspect`'s lookup: the recorded creature, if caught. */
    method Inspect(name: string) returns (found: Option<Pokemon>)
      ensures found.Some? <==> name in caught
      ensures found.Some? ==> found.value == caught[name]
    {
      if name in caught {
        found := Some(caught[name]);
      } else {
        found := None;
      }
    }
  }
}
