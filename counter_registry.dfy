/** The cycle-counter registry of src/0_core/counter_registry.cpp: a map from counter
  * names to shared counter objects, filled by `register_counter` and read by `get`. */
module CounterRegistry {
  import opened Wrappers
  import opened GenericIf

  /** `Cycle_counter`: a named counter bound to a clock and a start signal, given here
    * by the identities of those two signals. */
  class CycleCounter {
    const name: string
    const clock: nat
    const started: nat
    var curCycleNum: Uint32

    constructor (name: string, clock: nat, started: nat)
      ensures this.name == name && this.clock == clock && this.started == started
      ensures curCycleNum == 0
    {
      this.name := name;
      this.clock := clock;
      this.started := started;
      curCycleNum := 0;
    }
  }

  /** The map after registering `c` under `name`: an existing entry wins. */
  function Register<C>(m: map<string, C>, name: string, c: C): map<string, C>
  {
    if name in m then m else m[name := c]
  }

  /** After registering, the name is present and maps to the new counter exactly when
    * it was absent before. */
  lemma RegisterLookup<C>(m: map<string, C>, name: string, c: C)
    ensures name in Register(m, name, c)
    ensures Register(m, name, c)[name] == if name in m then m[name] else c
    ensures Register(m, name, c).Keys == m.Keys + {name}
  {
  }

  /** Registering never touches another name's entry. */
  lemma RegisterKeepsOthers<C>(m: map<string, C>, name: string, c: C, other: string)
    requires other != name && other in m
    ensures other in Register(m, name, c) && Register(m, name, c)[other] == m[other]
  {
  }

  /** Registering the same name a second time changes nothing, whatever the counter. */
  lemma RegisterTwice<C>(m: map<string, C>, name: string, c: C, c': C)
    ensures Register(Register(m, name, c), name, c') == Register(m, name, c)
  {
  }

  /** `counter_registry`: the `counters_` map. */
  class Registry {
    var counters: map<string, CycleCounter>

    constructor ()
      ensures counters == map[]
    {
      counters := map[];
    }

    /** `if_not_exists_`: true iff no counter has the name yet. */
    function IfNotExists(name: string): (r: bool)
      reads this
      ensures r <==> name !in counters
    {
      !(name in counters)
    }

    /** `get`: the counter registered under the name; an unknown name aborts the
      * simulation. */
    function Get(name: string): (r: Result<CycleCounter, string>)
      reads this
      ensures r.Success? <==> name in counters
      ensures r.Success? ==> r.value == counters[name]
    {
      if name in counters then Success(counters[name])
      else Failure("no counter " + name)
    }

    /** `register_counter`: builds a new counter bound to the clock and start signal
      * and inserts it only when the name is free. */
    method RegisterCounter(clock: nat, started: nat, name: string) returns (c: CycleCounter)
      modifies this
      ensures fresh(c) && c.name == name && c.clock == clock && c.started == started
      ensures counters == Register(old(counters), name, c)
      ensures name in old(counters) ==> Get(name) == Success(old(counters)[name])
      ensures name !in old(counters) ==> Get(name) == Success(c)
    {
      c := new CycleCounter(name, clock, started);
      if IfNotExists(name) {
        counters := counters[name := c];
      }
    }
  }
}
