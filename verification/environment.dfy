/** The customer world of environment.py: a square grid and an ordered list of
    customer positions that jitter on an internal cadence. The index of a
    customer in the list is its id. */
module World {
  import opened Geometry

  /** `move_customers` jitters only on calls where its counter is a multiple of this. */
  const JitterPeriod := 5

  /** The jittered list: customer `i` moved by `jitter(i)` and clamped to the grid. */
  function Jittered(cs: seq<Pos>, jitter: nat -> (int, int), size: int): (r: seq<Pos>)
    requires size >= 1
    requires forall i :: -1 <= jitter(i).0 <= 1 && -1 <= jitter(i).1 <= 1
    ensures |r| == |cs|
    ensures forall i :: 0 <= i < |r| ==> InGrid(r[i], size)
    ensures forall i :: 0 <= i < |r| && InGrid(cs[i], size) ==>
              -1 <= r[i].x - cs[i].x <= 1 && -1 <= r[i].y - cs[i].y <= 1
  {
    var r := seq(|cs|, i requires 0 <= i < |cs| =>
      ClampPos(cs[i].x + jitter(i).0, cs[i].y + jitter(i).1, size));
    assert forall i :: 0 <= i < |cs| ==>
      r[i] == ClampPos(cs[i].x + jitter(i).0, cs[i].y + jitter(i).1, size);
    r
  }

  class Environment {
    const size: int
    var customers: seq<Pos>
    var stepCount: nat

    /** The grid is non-empty and every customer lies on it. */
    ghost predicate Valid()
      reads this
    {
      size >= 1 && forall i :: 0 <= i < |customers| ==> InGrid(customers[i], size)
    }

    /** `Environment(size, num_customers)`: `draws[i]` is the pair of
        `np.random.randint(0, size)` values drawn for customer `i`. */
    constructor (size: int, numCustomers: nat, draws: seq<Pos>)
      requires size >= 1
      requires |draws| == numCustomers
      requires forall i :: 0 <= i < |draws| ==> InGrid(draws[i], size)
      ensures Valid()
      ensures this.size == size && stepCount == 0
      ensures |customers| == numCustomers && customers == draws
    {
      this.size := size;
      customers := draws;
      stepCount := 0;
    }

    /** `move_customers`: on a call whose counter is a multiple of five every
        customer moves by its `jitter(i)` step (each component drawn from
        `{-1, 0, 1}`), clamped to the grid; the counter always advances. */
    method MoveCustomers(jitter: nat -> (int, int))
      requires Valid()
      requires forall i :: -1 <= jitter(i).0 <= 1 && -1 <= jitter(i).1 <= 1
      modifies this
      ensures Valid()
      ensures stepCount == old(stepCount) + 1
      ensures customers ==
        if old(stepCount) % JitterPeriod == 0 then Jittered(old(customers), jitter, size)
        else old(customers)
    {
      if stepCount % JitterPeriod == 0 {
        ghost var target := Jittered(customers, jitter, size);
        var i := 0;
        while i < |customers|
          invariant 0 <= i <= |customers| == |old(customers)|
          invariant stepCount == old(stepCount)
          invariant forall j :: 0 <= j < i ==> customers[j] == target[j]
          invariant forall j :: i <= j < |customers| ==> customers[j] == old(customers)[j]
        {
          var c := customers[i];
          var (dx, dy) := jitter(i);
          customers := customers[i := ClampPos(c.x + dx, c.y + dy, size)];
          i := i + 1;
        }
      }
      stepCount := stepCount + 1;
    }
  }
}
