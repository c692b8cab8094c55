/** Status callbacks: each subscriber is identified by a number and keeps what it was told. */
module Listeners {

  /** Every callback, and no other, is told `v` once, in addition to what it heard before. */
  function Broadcast<T>(subs: map<nat, seq<T>>, v: T): (r: map<nat, seq<T>>)
    ensures r.Keys == subs.Keys
    ensures forall id :: id in r ==> r[id] == subs[id] + [v]
  {
    map id | id in subs :: subs[id] + [v]
  }
}
