/** KeyedCoordinator as the program keeps it: a map from key to the newest promise of its
    chain. `run` is split at its awaits into Acquire, Resume and Release. */
module KeyedCoordinators {
  import opened Prelude
  import opened KeyLock

  class KeyedCoordinator {
    var tails: map<Key, Ticket>
    // The promises made so far, by ticket.
    var cells: seq<Cell>

    ghost function View(): Keyed
      reads this
    {
      Keyed(tails, cells)
    }

    constructor ()
      ensures View() == EMPTY
    {
      tails, cells := map[], [];
    }

    method Acquire(key: Key, op: nat) returns (ticket: Ticket)
      modifies this
      ensures ticket == old(|cells|)
      ensures View() == Join(old(View()), key, op)
    {
      var previous: Option<Ticket> := None;
      if key in tails {
        previous := Some(tails[key]);
      }
      ticket := |cells|;
      cells := cells + [Cell(key, op, previous, false, false)];
      tails := tails[key := ticket];
    }

    method Resume(ticket: Ticket)
      requires CanEnter(View(), ticket)
      modifies this`cells
      ensures View() == Enter(old(View()), ticket)
    {
      cells := cells[ticket := cells[ticket].(entered := true)];
    }

    method Release(ticket: Ticket)
      requires Busy(cells, ticket) && cells[ticket].entered
      modifies this
      ensures View() == KeyLock.Release(old(View()), ticket)
    {
      var key := cells[ticket].key;
      cells := cells[ticket := cells[ticket].(released := true)];
      if key in tails && tails[key] == ticket {
        tails := tails - {key};
      }
    }
  }
}
