/** Counters labelled by an identifier, as the service's metrics are. */
module Tallies {

  type Tally = map<string, nat>

  function Count(t: Tally, id: string): nat {
    if id in t then t[id] else 0
  }

  function Bump(t: Tally, id: string): Tally {
    t[id := Count(t, id) + 1]
  }

  function BumpIf(t: Tally, id: string, happened: bool): Tally {
    if happened then Bump(t, id) else t
  }

  function One(b: bool): nat { if b then 1 else 0 }

  lemma BumpIfCounts(t: Tally, id: string, happened: bool, x: string)
    ensures Count(BumpIf(t, id, happened), x) == Count(t, x) + One(happened && x == id)
  {
  }
}
