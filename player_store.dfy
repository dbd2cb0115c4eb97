/** The local player store (src/entities/Player.js): the array kept under
    the 'fifa-players' key. */
module PlayerStore {
  import opened Records
  import opened Lists

  class PlayerStore {
    /** The value under 'fifa-players'. */
    var stored: Stored<Player>

    constructor (initial: Stored<Player>)
      ensures stored == initial
    {
      stored := initial;
    }

    /** `Player.list`: the stored array, or `[]`. */
    function List(): (r: seq<Player>)
      reads this
      ensures stored.Items? ==> r == stored.items
      ensures !stored.Items? ==> r == []
    {
      ReadItems(stored)
    }

    /** `Player.create`: exactly one record appended; no check for a
        player of the same name. */
    method Create(name: string, newId: string, now: string) returns (created: Player)
      modifies this
      ensures created == Player(newId, name, now)
      ensures stored == Items(old(List()) + [created])
      ensures |List()| == |old(List())| + 1
      ensures List()[..|old(List())|] == old(List())
    {
      var ps := List();
      created := Player(newId, name, now);
      ps := ps + [created];
      stored := Items(ps);
    }

    /** `Player.delete`: every record with the id removed, the rest in
        order; an absent id leaves the list as it was and still succeeds. */
    method Delete(id: string) returns (ok: bool)
      modifies this
      ensures ok
      ensures stored == Items(Filter(old(List()), (p: Player) => p.id != id))
      ensures forall p :: p in List() <==> p in old(List()) && p.id != id
    {
      var ps := List();
      stored := Items(Filter(ps, (p: Player) => p.id != id));
      ok := true;
    }
  }
}
