/** Counting which deliveries hold a reservation of what. */
module Holdings {

  ghost function Under<T>(deliveries: set<T>, of: T -> string, id: string): set<T> {
    set d | d in deliveries && of(d) == id
  }

  /** How many of these deliveries hold a reservation of this id. */
  ghost function Uses<T>(deliveries: set<T>, of: T -> string, id: string): nat {
    |Under(deliveries, of, id)|
  }

  /** Reservations and deliveries match one to one; a delivery without an id holds none. */
  ghost predicate Balanced<T>(open: set<T>, of: T -> string, outstanding: multiset<string>) {
    forall id :: outstanding[id] == if id == "" then 0 else Uses(open, of, id)
  }

  ghost function WithUse(outstanding: multiset<string>, id: string): multiset<string> {
    if id == "" then outstanding else outstanding + multiset{id}
  }

  ghost function WithoutUse(outstanding: multiset<string>, id: string): multiset<string> {
    if id == "" then outstanding else outstanding - multiset{id}
  }

  lemma UseReturned(outstanding: multiset<string>, id: string)
    ensures WithoutUse(WithUse(outstanding, id), id) == outstanding
    ensures id == "" || id in WithUse(outstanding, id)
  {
  }

  lemma UsesWith<T>(others: set<T>, of: T -> string, d: T)
    requires d !in others
    ensures forall id :: Uses(others + {d}, of, id) == Uses(others, of, id) + if id == of(d) then 1 else 0
  {
    forall id: string
      ensures Uses(others + {d}, of, id) == Uses(others, of, id) + if id == of(d) then 1 else 0
    {
      assert Under(others + {d}, of, id) == if id == of(d) then Under(others, of, id) + {d} else Under(others, of, id);
    }
  }

  lemma OneMore<T>(open: set<T>, of: T -> string, d: T, outstanding: multiset<string>)
    requires d !in open && Balanced(open, of, outstanding)
    ensures Balanced(open + {d}, of, WithUse(outstanding, of(d)))
  {
    hide Uses;
    UsesWith(open, of, d);
  }

  lemma OneLess<T>(open: set<T>, of: T -> string, d: T, outstanding: multiset<string>)
    requires d in open && Balanced(open, of, outstanding)
    ensures of(d) == "" || of(d) in outstanding
    ensures Balanced(open - {d}, of, WithoutUse(outstanding, of(d)))
  {
    hide Uses;
    UsesWith(open - {d}, of, d);
    assert open - {d} + {d} == open;
    assert outstanding[of(d)] == if of(d) == "" then 0 else Uses(open, of, of(d));
  }
}
