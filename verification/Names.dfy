/** Phones and locks by name, and what it is to have each of a set once. */
module Names {

  datatype Serial = Serial(name: string)

  datatype Lock = Lock(id: string)

  /** order has every element of s once and no other. */
  ghost predicate OnceEach<T>(order: seq<T>, s: set<T>) {
    multiset(order) == multiset(s)
  }
}
