/** The users of each sector: a grid of doubly linked lists, in which every user
    remembers its own place so that it can be removed in constant time. */
module SectorIndex {
  import Around = SectorAround

  // s without its first x.
  function Without<T(==)>(s: seq<T>, x: T): (r: seq<T>)
    ensures |r| <= |s|
  {
    if s == [] then [] else if s[0] == x then s[1..] else [s[0]] + Without(s[1..], x)
  }

  lemma StillThere<T>(s: seq<T>, k: nat, x: T)
    requires k < |s| && x in s && x != s[k]
    ensures x in s[..k] + s[k + 1..]
  {
    var i :| 0 <= i < |s| && s[i] == x;
    assert i < k ==> (s[..k] + s[k + 1..])[i] == x;
    assert i > k ==> (s[..k] + s[k + 1..])[i - 1] == x;
  }

  lemma {:induction false} WithoutAt<T>(s: seq<T>, x: T, k: nat)
    requires k < |s| && s[k] == x && x !in s[..k]
    ensures Without(s, x) == s[..k] + s[k + 1..]
  {
    if k > 0 {
      assert s[0] in s[..k];
      assert s[..k][1..] == s[1..][..k - 1];
      WithoutAt(s[1..], x, k - 1);
      assert s[..k] == [s[0]] + s[1..][..k - 1];
    }
  }

  lemma CountOne<T>(s: seq<T>, x: T, k: nat)
    requires k < |s| && s[k] == x && forall i :: 0 <= i < |s| && i != k ==> s[i] != x
    ensures multiset(s)[x] == 1
  {
    assert s == s[..k] + [x] + s[k + 1..];
    assert x !in s[..k] && x !in s[k + 1..];
  }

  // A node never changes its user, so the users of a list are read off its nodes.
  ghost function UsersOf(nodes: seq<Node>): (us: seq<User>)
    ensures |us| == |nodes|
  {
    seq(|nodes|, i requires 0 <= i < |nodes| => nodes[i].user)
  }

  lemma UsersOfCut(nodes: seq<Node>, k: nat)
    requires k < |nodes|
    ensures UsersOf(nodes[..k] + nodes[k + 1..]) == UsersOf(nodes)[..k] + UsersOf(nodes)[k + 1..]
  {
    var cut := nodes[..k] + nodes[k + 1..];
    forall i | 0 <= i < |cut| ensures UsersOf(cut)[i] == (UsersOf(nodes)[..k] + UsersOf(nodes)[k + 1..])[i] {
      assert cut[i] == nodes[if i < k then i else i + 1];
    }
  }

  ghost function Elements<T>(s: seq<T>): set<T> {
    set x | x in s
  }

  lemma {:induction false} DistinctCard<T>(s: seq<T>)
    requires forall i, j :: 0 <= i < j < |s| ==> s[i] != s[j]
    ensures |Elements(s)| == |s|
  {
    if s != [] {
      var init, x := s[..|s| - 1], s[|s| - 1];
      DistinctCard(init);
      assert Elements(s) == Elements(init) + {x};
    }
  }

  class User {
    var inSector: bool
    var sectorX: int
    var sectorY: int
    // The iterator: this user's node in its sector's list.
    var sectorIter: Node?

    constructor ()
      ensures !inSector
    {
      inSector, sectorX, sectorY, sectorIter := false, -1, -1, null;
    }

    method InitUser()
      modifies this`inSector, this`sectorX, this`sectorY
      ensures !inSector && sectorX == -1 && sectorY == -1
    {
      sectorX := -1;
      sectorY := -1;
      inSector := false;
    }

    method MoveSector(x: int, y: int)
      requires 0 <= x && 0 <= y
      modifies this`sectorX, this`sectorY
      ensures sectorX == x && sectorY == y
    {
      sectorX := x;
      sectorY := y;
    }
  }

  class Node {
    const user: User
    var prev: Node?
    var next: Node?
    // The list this node was made for.
    ghost const home: UserList

    constructor (user: User, prev: Node?, ghost home: UserList)
      ensures this.user == user && this.prev == prev && next == null && this.home == home
    {
      this.user := user;
      this.prev := prev;
      this.next := null;
      this.home := home;
    }
  }

  // std::list<User*>
  class UserList {
    var head: Node?
    var tail: Node?
    ghost var nodes: seq<Node>
    // The sector whose list this is.
    ghost const x: int
    ghost const y: int

    constructor (ghost x: int, ghost y: int)
      ensures Valid() && nodes == [] && this.x == x && this.y == y
    {
      head, tail := null, null;
      nodes := [];
      this.x, this.y := x, y;
    }

    ghost predicate Valid()
      reads this, nodes
    {
      && head == At(0) && tail == At(|nodes| - 1)
      && (forall i :: 0 <= i < |nodes| ==> Linked(i))
      && (forall i, j :: 0 <= i < j < |nodes| ==> nodes[i] != nodes[j])
    }

    ghost function At(i: int): Node?
      reads this
    {
      if 0 <= i < |nodes| then nodes[i] else null
    }

    ghost predicate Linked(i: nat)
      requires i < |nodes|
      reads this, nodes
    {
      nodes[i].home == this && nodes[i].prev == At(i - 1) && nodes[i].next == At(i + 1)
    }

    // The list as its users see it.
    ghost function Users(): (us: seq<User>)
      reads this
      ensures |us| == |nodes|
    {
      UsersOf(nodes)
    }

    // insert(end(), user): the new node is last, and every other stays.
    method InsertEnd(user: User) returns (iter: Node)
      requires Valid()
      modifies this, nodes
      ensures Valid() && fresh(iter) && iter.user == user && iter.home == this
      ensures nodes == old(nodes) + [iter]
    {
      assert nodes != [] ==> Linked(|nodes| - 1);
      iter := new Node(user, tail, this);
      if tail == null {
        head := iter;
      } else {
        tail.next := iter;
      }
      tail := iter;
      ghost var n := |nodes|;
      nodes := nodes + [iter];
      forall i | 0 <= i < |nodes| ensures Linked(i) {
        if i < n { assert old(Linked(i)); }
      }
    }

    // erase(iter)
    method Erase(iter: Node, ghost k: nat)
      requires Valid() && k < |nodes| && nodes[k] == iter
      modifies this, nodes
      ensures Valid() && nodes == old(nodes)[..k] + old(nodes)[k + 1..]
    {
      assert Linked(k) && (k > 0 ==> Linked(k - 1)) && (k + 1 < |nodes| ==> Linked(k + 1));
      var before, after := iter.prev, iter.next;
      assert before == At(k - 1) && after == At(k + 1);
      if before == null {
        head := after;
      } else {
        before.next := after;
      }
      if after == null {
        tail := before;
      } else {
        after.prev := before;
      }
      nodes := nodes[..k] + nodes[k + 1..];
      forall i | 0 <= i < |nodes| ensures Linked(i) {
        assert old(Linked(if i < k then i else i + 1));
      }
    }

    // The search of the branch without remembered iterators: the first node of
    // this user, erased.
    method RemoveFirst(user: User, ghost k: nat)
      requires Valid() && k < |nodes| && nodes[k].user == user
      requires forall i :: 0 <= i < k ==> nodes[i].user != user
      modifies this, nodes
      ensures Valid() && nodes == old(nodes)[..k] + old(nodes)[k + 1..]
    {
      var iter := head;
      ghost var i := 0;
      while iter != null
        invariant i <= k && iter == nodes[i] && nodes == old(nodes) && Valid()
        decreases k - i
      {
        if iter.user == user {
          Erase(iter, i);
          break;
        }
        assert Linked(i);
        iter := iter.next;
        i := i + 1;
      }
    }

    // The loop of SendMessageSector: every user of the list, in order.
    method Each() returns (us: seq<User>)
      requires Valid()
      ensures us == Users()
    {
      us := [];
      var iter := head;
      while iter != null
        invariant |us| <= |nodes| && iter == At(|us|) && us == Users()[..|us|]
        decreases |nodes| - |us|
      {
        assert Linked(|us|);
        us := us + [iter.user];
        iter := iter.next;
      }
    }

    // The two branches of Sector_RemoveUser.
    method EraseUser(user: User, iter: Node, byIter: bool, ghost k: nat)
      requires Valid() && k < |nodes| && nodes[k] == iter && iter.user == user
      requires forall i :: 0 <= i < |nodes| && i != k ==> nodes[i].user != user
      modifies this, nodes
      ensures Valid() && nodes == old(nodes)[..k] + old(nodes)[k + 1..]
    {
      if byIter {
        Erase(iter, k);
      } else {
        RemoveFirst(user, k);
      }
    }
  }

  /** g_SectorList, of any size. */
  class SectorGrid {
    const w: nat
    const h: nat
    const lists: seq<seq<UserList>>
    ghost const all: set<UserList>
    // Every node made so far, and every user known.
    ghost var made: set<Node>
    ghost var users: set<User>

    ghost predicate Shape() {
      && |lists| == h && (forall y :: 0 <= y < h ==> |lists[y]| == w)
      && (forall x, y :: 0 <= x < w && 0 <= y < h ==>
            lists[y][x] in all && lists[y][x].x == x && lists[y][x].y == y)
      && (forall l <- all :: InGrid(l.x, l.y) && lists[l.y][l.x] == l)
    }

    predicate InGrid(x: int, y: int) {
      0 <= x < w && 0 <= y < h
    }

    function ListAt(x: int, y: int): UserList
      requires Shape() && InGrid(x, y)
    {
      lists[y][x]
    }

    // A node in a list belongs to a user that is there and remembers it.
    ghost predicate Placed(l: UserList, n: Node)
      reads n.user
    {
      && n.home == l && n.user.inSector && n.user.sectorIter == n
      && n.user.sectorX == l.x && n.user.sectorY == l.y
    }

    // A user that is in a sector has its node in that sector's list.
    ghost predicate Indexed(u: User)
      requires Shape()
      reads u, if InGrid(u.sectorX, u.sectorY) then {ListAt(u.sectorX, u.sectorY)} else {}
    {
      u.inSector ==>
        && InGrid(u.sectorX, u.sectorY) && u.sectorIter != null
        && u.sectorIter in ListAt(u.sectorX, u.sectorY).nodes && u.sectorIter.user == u
    }

    ghost predicate ListsOk()
      requires Shape()
      reads this, all, made, users
    {
      forall l <- all ::
        && (forall n <- l.nodes :: n in made && n.user in users)
        && l.Valid()
        && (forall n <- l.nodes :: Placed(l, n))
    }

    /** The index agrees with the users: a user is in the list of a sector, once,
        exactly if it is flagged and has that sector's coordinates, and its
        iterator is its node there. */
    ghost predicate Valid()
      reads this, all, made, users
    {
      Shape() && ListsOk() && forall u <- users :: Indexed(u)
    }

    // Nothing that list l depends on has changed.
    twostate predicate SameList(l: UserList)
      reads l, l.nodes, set n <- l.nodes :: n.user
    {
      && unchanged(l) && (forall n <- l.nodes :: old(allocated(n)) && unchanged(n))
      && (forall n <- l.nodes :: old(allocated(n.user)) && unchanged(n.user))
    }

    twostate lemma OtherListOk(l: UserList)
      requires Shape() && old(ListsOk()) && l in all && SameList(l)
      requires old(made) <= made && old(users) <= users
      ensures (forall n <- l.nodes :: n in made && n.user in users && Placed(l, n)) && l.Valid()
    {
      assert old(l.Valid());
      forall i | 0 <= i < |l.nodes| ensures l.Linked(i) {
        assert l.nodes[i] in l.nodes && old(l.Linked(i));
      }
      forall n | n in l.nodes ensures Placed(l, n) {
        assert old(Placed(l, n));
      }
    }

    // Sector_AddUser; crashed is the source's deliberate crash.
    method AddUser(user: User) returns (crashed: bool)
      requires Valid() && user in users && InGrid(user.sectorX, user.sectorY)
      modifies this`made, user`inSector, user`sectorIter, all, made
      ensures Valid() && users == old(users) && crashed == old(user.inSector)
      ensures forall l <- all :: old(l.nodes) <= l.nodes && l.Users() == old(l.Users()) +
                if l == ListAt(user.sectorX, user.sectorY) && !crashed then [user] else []
      ensures user.inSector && (crashed ==> user.sectorIter == old(user.sectorIter))
    {
      if user.inSector {
        return true;
      }
      var sector := ListAt(user.sectorX, user.sectorY);
      assert sector in all;
      Append(sector, user);
      assert sector.Users() == old(sector.Users()) + [user];
      forall u | u in users ensures Indexed(u) {
        assert old(Indexed(u));
      }
      return false;
    }

    // A user that is in no sector has no node in any list, and no node is in two.
    lemma NoPlace(sector: UserList, user: User)
      requires Valid() && user in users && !user.inSector && sector in all
      ensures sector.Valid() && forall n <- sector.nodes :: n.user != user
      ensures forall l <- all :: l != sector ==> forall n <- l.nodes :: n !in sector.nodes && n.user != user
    {
      forall l | l in all && l != sector
        ensures forall n <- l.nodes :: n !in sector.nodes && n.user != user
      {
        assert l.Valid() && sector.Valid();
      }
    }

    method Append(sector: UserList, user: User)
      requires Valid() && user in users && !user.inSector && InGrid(user.sectorX, user.sectorY)
      requires sector == ListAt(user.sectorX, user.sectorY) && sector in all
      modifies this`made, user`inSector, user`sectorIter, sector, sector.nodes
      ensures Shape() && ListsOk() && made >= old(made)
      ensures user.inSector && user.sectorIter != null && fresh(user.sectorIter) && user.sectorIter.user == user
      ensures sector.nodes == old(sector.nodes) + [user.sectorIter]
      ensures forall l <- all :: l != sector ==> l.nodes == old(l.nodes)
    {
      hide UserList.Linked, UserList.Valid, Indexed;
      NoPlace(sector, user);
      var iter := sector.InsertEnd(user);
      made := made + {iter};
      user.sectorIter := iter;
      user.inSector := true;
      forall l | l in all
        ensures (forall n <- l.nodes :: n in made && n.user in users && Placed(l, n)) && l.Valid()
      {
        if l != sector {
          assert SameList(l);
          OtherListOk(l);
        }
      }
    }

    // Under the invariant a list holds a user at most once, at its iterator.
    lemma OnlyPlace(l: UserList, user: User) returns (k: nat)
      requires Valid() && user in users && user.inSector && l == ListAt(user.sectorX, user.sectorY)
      ensures k < |l.nodes| && l.nodes[k] == user.sectorIter
      ensures forall i :: 0 <= i < |l.nodes| && l.nodes[i].user == user ==> i == k
      ensures Without(l.Users(), user) == l.Users()[..k] + l.Users()[k + 1..]
    {
      assert Indexed(user) && l in all;
      k :| 0 <= k < |l.nodes| && l.nodes[k] == user.sectorIter;
      forall i | 0 <= i < |l.nodes| && l.nodes[i].user == user ensures i == k {
        assert Placed(l, l.nodes[i]);
      }
      WithoutAt(l.Users(), user, k);
    }

    // What either way of removing a user does to the lists.
    twostate predicate Removed(user: User)
      requires Shape() && InGrid(user.sectorX, user.sectorY)
      reads all, user
    {
      var l := ListAt(user.sectorX, user.sectorY);
      && l.Users() == Without(old(l.Users()), user)
      && l.nodes == Without(old(l.nodes), old(user.sectorIter))
      && forall m <- all :: m != l ==> m.nodes == old(m.nodes)
    }

    // The users a list should have once the user is out of its sector.
    twostate function Left(l: UserList, user: User): seq<User>
      reads l, user
    {
      if old(user.inSector) && l.x == old(user.sectorX) && l.y == old(user.sectorY)
      then Without(old(l.Users()), user) else old(l.Users())
    }

    /** Sector_RemoveUser, by the remembered iterator or, in the branch compiled
        when iterators are not remembered, by searching the list: the effect is
        the same. A user that is in no sector is left alone. */
    method RemoveUser(user: User, byIter: bool)
      requires Valid() && user in users
      modifies user`inSector, all, made
      ensures Valid() && !user.inSector
      ensures forall l <- all :: l.Users() == Left(l, user)
    {
      if user.inSector {
        assert Indexed(user);
        var sector := ListAt(user.sectorX, user.sectorY);
        assert sector in all;
        hide Without, ListsOk, Indexed;
        Remove(user, byIter);
        forall l | l in all ensures l.Users() == Left(l, user) {
          assert l != sector ==> l.nodes == old(l.nodes);
        }
      }
    }

    method Remove(user: User, byIter: bool)
      requires Valid() && user in users && user.inSector && InGrid(user.sectorX, user.sectorY)
      modifies user`inSector, ListAt(user.sectorX, user.sectorY), ListAt(user.sectorX, user.sectorY).nodes
      ensures Valid() && !user.inSector
      ensures Removed(user)
    {
      hide Without, UsersOf, UserList.Linked, UserList.Valid, ListsOk, Indexed;
      var sector := ListAt(user.sectorX, user.sectorY);
      ghost var k := CutAt(sector, user);
      EraseFrom(sector, user, byIter, k);
    }

    // What is left of a list without the user's node.
    lemma CutAt(sector: UserList, user: User) returns (k: nat)
      requires Valid() && user in users && user.inSector && InGrid(user.sectorX, user.sectorY)
      requires sector == ListAt(user.sectorX, user.sectorY)
      ensures sector in all && k < |sector.nodes| && sector.nodes[k] == user.sectorIter
      ensures var cut := sector.nodes[..k] + sector.nodes[k + 1..];
              cut == Without(sector.nodes, user.sectorIter) && UsersOf(cut) == Without(sector.Users(), user)
    {
      assert Indexed(user) && sector in all && sector.Valid();
      k := OnlyPlace(sector, user);
      WithoutAt(sector.nodes, user.sectorIter, k);
      UsersOfCut(sector.nodes, k);
    }

    // A user that was in the list before its kth node went, and is not that
    // node's user, is still in it.
    lemma StillIndexed(u: User, sector: UserList, before: seq<Node>, k: nat)
      requires Shape() && k < |before| && sector.nodes == before[..k] + before[k + 1..]
      requires u.inSector ==> InGrid(u.sectorX, u.sectorY) && u.sectorIter != null && u.sectorIter.user == u
      requires u.inSector && ListAt(u.sectorX, u.sectorY) != sector ==>
                 u.sectorIter in ListAt(u.sectorX, u.sectorY).nodes
      requires u.inSector && ListAt(u.sectorX, u.sectorY) == sector ==> u.sectorIter in before
      requires before[k].user != u
      ensures Indexed(u)
    {
      if u.inSector && ListAt(u.sectorX, u.sectorY) == sector {
        StillThere(before, k, u.sectorIter);
      }
    }

    method EraseFrom(sector: UserList, user: User, byIter: bool, ghost k: nat)
      requires Valid() && user in users && user.inSector && InGrid(user.sectorX, user.sectorY)
      requires sector == ListAt(user.sectorX, user.sectorY) && k < |sector.nodes|
      requires sector.nodes[k] == user.sectorIter
      modifies user`inSector, sector, sector.nodes
      ensures Valid() && !user.inSector
      ensures sector.nodes == old(sector.nodes)[..k] + old(sector.nodes)[k + 1..]
      ensures forall l <- all :: l != sector ==> l.nodes == old(l.nodes)
    {
      ghost var before := sector.nodes;
      EraseNode(sector, user, byIter, k);
      hide Without, UserList.Linked, UserList.Valid, ListsOk;
      forall u | u in users ensures Indexed(u) {
        assert old(Indexed(u));
        if u != user {
          StillIndexed(u, sector, before, k);
        }
      }
    }

    // Only the kth node of this list has anything to do with its user.
    lemma NoOtherPlace(sector: UserList, user: User, k: nat)
      requires Valid() && user in users && user.inSector && InGrid(user.sectorX, user.sectorY)
      requires sector == ListAt(user.sectorX, user.sectorY) && k < |sector.nodes|
      requires sector.nodes[k] == user.sectorIter
      ensures sector in all && sector.Valid() && sector.nodes[k].user == user
      ensures forall i :: 0 <= i < |sector.nodes| && i != k ==> sector.nodes[i].user != user
      ensures forall l <- all :: l != sector ==> forall n <- l.nodes :: n !in sector.nodes && n.user != user
    {
      assert Indexed(user) && sector in all;
      forall l | l in all && l != sector
        ensures forall n <- l.nodes :: n !in sector.nodes && n.user != user
      {
        assert l.Valid() && sector.Valid();
      }
      forall i | 0 <= i < |sector.nodes| && i != k ensures sector.nodes[i].user != user {
        assert Placed(sector, sector.nodes[i]);
      }
    }

    method EraseNode(sector: UserList, user: User, byIter: bool, ghost k: nat)
      requires Valid() && user in users && user.inSector && InGrid(user.sectorX, user.sectorY)
      requires sector == ListAt(user.sectorX, user.sectorY) && k < |sector.nodes|
      requires sector.nodes[k] == user.sectorIter
      modifies user`inSector, sector, sector.nodes
      ensures Shape() && ListsOk() && !user.inSector
      ensures sector.nodes == old(sector.nodes)[..k] + old(sector.nodes)[k + 1..]
      ensures forall l <- all :: l != sector ==> l.nodes == old(l.nodes)
    {
      hide UserList.Linked, UserList.Valid, Indexed;
      NoOtherPlace(sector, user, k);
      sector.EraseUser(user, user.sectorIter, byIter, k);
      user.inSector := false;
      forall l | l in all
        ensures (forall n <- l.nodes :: n in made && n.user in users && Placed(l, n)) && l.Valid()
      {
        if l != sector {
          assert SameList(l);
          OtherListOk(l);
        }
      }
    }

    // A user that is in no sector may be given any coordinates.
    method Relocate(user: User, x: int, y: int)
      requires Valid() && user in users && !user.inSector && 0 <= x && 0 <= y
      modifies user`sectorX, user`sectorY
      ensures Valid() && user.sectorX == x && user.sectorY == y
    {
      forall l, n | l in all && n in l.nodes ensures n.user != user {
        assert Placed(l, n);
      }
      user.MoveSector(x, y);
      forall l | l in all
        ensures (forall n <- l.nodes :: n in made && n.user in users && Placed(l, n)) && l.Valid()
      {
        assert SameList(l);
        OtherListOk(l);
      }
      forall u | u in users ensures Indexed(u) {
        assert old(Indexed(u));
      }
    }

    // A new connection: the user is known, and in no sector.
    method Join(user: User)
      requires Valid() && (user in users ==> !user.inSector)
      modifies this`users, user`inSector, user`sectorX, user`sectorY
      ensures Valid() && users == old(users) + {user} && !user.inSector && user.sectorX == user.sectorY == -1
      ensures forall l <- all :: l.nodes == old(l.nodes)
    {
      forall l, n | l in all && n in l.nodes ensures n.user != user {
        assert Placed(l, n);
      }
      user.InitUser();
      users := users + {user};
      forall l | l in all
        ensures (forall n <- l.nodes :: n in made && n.user in users && Placed(l, n)) && l.Valid()
      {
        assert SameList(l);
        OtherListOk(l);
      }
      forall u | u in users ensures Indexed(u) {
        assert u != user ==> old(Indexed(u));
      }
    }

    // DeleteUser: out of its sector, if it is in one.
    method Leave(user: User, byIter: bool)
      requires Valid() && user in users
      modifies user`inSector, all, made
      ensures Valid() && !user.inSector
      ensures forall l <- all :: l.Users() == Left(l, user)
    {
      hide ListsOk, Without, Indexed, UserList.Users;
      if user.inSector {
        RemoveUser(user, byIter);
        user.inSector := false;
      }
    }

    /** ProcSectorMove: a request outside the grid does nothing; otherwise the user
        goes to the end of the list of its new sector, and every other user keeps
        its sector and its order. AddUser never crashes here. */
    method SectorMove(user: User, x: int, y: int, byIter: bool) returns (ok: bool)
      requires Valid() && user in users
      modifies this`made, user`inSector, user`sectorX, user`sectorY, user`sectorIter, all, made
      ensures Valid() && users == old(users) && ok == InGrid(x, y)
      ensures ok ==> user.inSector && user.sectorX == x && user.sectorY == y
      ensures ok ==> forall l <- all :: l.Users() == Left(l, user) + if l.x == x && l.y == y then [user] else []
      ensures !ok ==> user.inSector == old(user.inSector) && forall l <- all :: l.nodes == old(l.nodes)
    {
      if x < 0 || x >= w || y < 0 || y >= h {
        return false;
      }
      MoveTo(user, x, y, byIter);
      return true;
    }

    method MoveTo(user: User, x: int, y: int, byIter: bool)
      requires Valid() && user in users && InGrid(x, y)
      modifies this`made, user`inSector, user`sectorX, user`sectorY, user`sectorIter, all, made
      ensures Valid() && users == old(users)
      ensures user.inSector && user.sectorX == x && user.sectorY == y
      ensures forall l <- all :: l.Users() == Left(l, user) + if l.x == x && l.y == y then [user] else []
    {
      hide ListsOk, Without, Indexed, UserList.Users;
      RemoveUser(user, byIter);
      Relocate(user, x, y);
      var crashed := AddUser(user);
      assert !crashed;
    }

    /** A user is in the list of a sector, then exactly once, if and only if it is
        flagged and has that sector's coordinates. */
    lemma ListedOnce(user: User, x: int, y: int)
      requires Valid() && user in users && InGrid(x, y)
      ensures var here := user.inSector && user.sectorX == x && user.sectorY == y;
              multiset(ListAt(x, y).Users())[user] == if here then 1 else 0
    {
      var l := ListAt(x, y);
      assert l in all;
      if user.inSector && user.sectorX == x && user.sectorY == y {
        var k := OnlyPlace(l, user);
        assert l.Users()[k] == user && forall i :: 0 <= i < |l.Users()| && i != k ==> l.Users()[i] != user;
        CountOne(l.Users(), user, k);
      } else {
        forall i | 0 <= i < |l.Users()| ensures l.Users()[i] != user {
          assert Placed(l, l.nodes[i]);
        }
      }
    }

    /** SendMessageAround: the users a message from (x, y) goes to are those whose
        sector is that one or next to it, and each gets it once. */
    method SendAround(x: int, y: int) returns (to: seq<User>)
      requires Valid()
      ensures forall u <- users ::
                multiset(to)[u] == if u.inSector && Around.Near(Around.Pos(u.sectorX, u.sectorY), Around.Pos(x, y)) then 1 else 0
      ensures forall u <- to :: u in users
    {
      hide Valid, ListsOk, Indexed, Times, Around.RowMajor;
      var a := new Around.SectorAround();
      Around.GetSectorAround(x, y, w, h, a);
      ghost var cells := a.Cells();
      to := [];
      NoneYet();
      for cnt := 0 to a.count
        invariant a.Valid() && a.Cells() == cells
        invariant forall u <- users :: multiset(to)[u] == Times(cells[..cnt], u)
        invariant forall u <- to :: u in users
      {
        var p := a.around[cnt];
        assert cells[cnt] == p && p in cells;
        assert cells[..cnt + 1] == cells[..cnt] + [p];
        var us := SendSector(p.x, p.y);
        forall u | u in users ensures multiset(to + us)[u] == Times(cells[..cnt + 1], u) {
          TimesMore(cells[..cnt], p, u);
        }
        to := to + us;
      }
      assert cells[..a.count] == cells;
      TimesAround(cells, x, y);
    }

    lemma NoneYet()
      ensures forall u: User :: Times([], u) == 0
    {
    }

    lemma TimesAround(cells: seq<Around.Pos>, x: int, y: int)
      requires Valid() && Around.IsAround(cells, Around.Pos(x, y), w, h)
      ensures forall u <- users ::
                Times(cells, u) ==
                if u.inSector && Around.Near(Around.Pos(u.sectorX, u.sectorY), Around.Pos(x, y)) then 1 else 0
    {
      Around.RowMajorOnce(cells);
      forall u | u in users && u.inSector ensures InGrid(u.sectorX, u.sectorY) {
        assert Indexed(u);
      }
    }

    lemma TimesMore(ps: seq<Around.Pos>, p: Around.Pos, u: User)
      ensures Times(ps + [p], u) ==
              Times(ps, u) + if u.inSector && u.sectorX == p.x && u.sectorY == p.y then 1 else 0
    {
    }

    // SendMessageSector: the users of one sector.
    method SendSector(x: int, y: int) returns (us: seq<User>)
      requires Valid() && InGrid(x, y)
      ensures us == ListAt(x, y).Users() && forall u <- us :: u in users
      ensures forall u <- users ::
                multiset(us)[u] == if u.inSector && u.sectorX == x && u.sectorY == y then 1 else 0
    {
      var l := ListAt(x, y);
      assert l in all;
      us := l.Each();
      forall u | u in users
        ensures multiset(us)[u] == if u.inSector && u.sectorX == x && u.sectorY == y then 1 else 0
      {
        ListedOnce(u, x, y);
      }
      forall u | u in us ensures u in users {
        var i :| 0 <= i < |us| && us[i] == u;
        assert l.nodes[i] in l.nodes;
      }
    }

    // How often a user's sector is among these.
    ghost function Times(ps: seq<Around.Pos>, u: User): nat
      reads u
    {
      if u.inSector then multiset(ps)[Around.Pos(u.sectorX, u.sectorY)] else 0
    }

    ghost function RowTotal(y: int, n: nat): nat
      requires Shape() && 0 <= y < h && n <= w
      reads all
    {
      if n == 0 then 0 else RowTotal(y, n - 1) + |ListAt(n - 1, y).nodes|
    }

    ghost function GridTotal(m: nat): nat
      requires Shape() && m <= h
      reads all
    {
      if m == 0 then 0 else GridTotal(m - 1) + RowTotal(m - 1, w)
    }

    // The flagged users in the rows above m and in row m left of n.
    ghost function Flagged(m: int, n: int): set<User>
      reads this, users
    {
      set u | u in users && u.inSector && (u.sectorY < m || (u.sectorY == m && u.sectorX < n))
    }

    lemma {:induction false} CountRow(m: nat, n: nat)
      requires Valid() && m < h && n <= w
      ensures |Flagged(m, n)| == |Flagged(m, 0)| + RowTotal(m, n)
    {
      hide Valid, Flagged, Elements;
      if n > 0 {
        CountRow(m, n - 1);
        FlaggedNext(m, n);
      }
    }

    lemma FlaggedNext(m: nat, n: nat)
      requires Valid() && m < h && 0 < n <= w
      ensures |Flagged(m, n)| == |Flagged(m, n - 1)| + |ListAt(n - 1, m).nodes|
    {
      ListMembers(n - 1, m);
      hide Valid;
      var here := Elements(ListAt(n - 1, m).Users());
      assert Flagged(m, n) == Flagged(m, n - 1) + here;
      assert Flagged(m, n - 1) !! here;
    }

    lemma ListMembers(x: int, y: int)
      requires Valid() && InGrid(x, y)
      ensures var here := Elements(ListAt(x, y).Users());
              && |here| == |ListAt(x, y).nodes|
              && here == set u | u in users && u.inSector && u.sectorX == x && u.sectorY == y
    {
      var l := ListAt(x, y);
      assert l in all;
      forall i | 0 <= i < |l.nodes| ensures Placed(l, l.nodes[i]) && l.nodes[i].user in users {
      }
      DistinctCard(l.Users());
      forall u | u in users && u.inSector && u.sectorX == x && u.sectorY == y ensures u in l.Users() {
        var k := OnlyPlace(l, u);
        assert l.Users()[k] == u;
      }
    }

    lemma {:induction false} CountRows(m: nat)
      requires Valid() && m <= h
      ensures |Flagged(m, 0)| == GridTotal(m)
    {
      if m == 0 {
        assert Flagged(0, 0) == {} by {
          forall u | u in users && u.inSector ensures 0 <= u.sectorX && 0 <= u.sectorY {
            assert Indexed(u);
          }
        }
      } else {
        CountRows(m - 1);
        CountRow(m - 1, w);
        assert Flagged(m, 0) == Flagged(m - 1, w) by {
          forall u | u in users && u.inSector ensures 0 <= u.sectorX < w {
            assert Indexed(u);
          }
        }
      }
    }

    /** The lengths of all lists add up to the number of flagged users. */
    lemma TotalIsFlagged()
      requires Valid()
      ensures GridTotal(h) == |set u | u in users && u.inSector|
    {
      CountRows(h);
      assert Flagged(h, 0) == set u | u in users && u.inSector by {
        forall u | u in users && u.inSector ensures u.sectorY < h {
          assert Indexed(u);
        }
      }
    }

    // An empty grid.
    constructor (w: nat, h: nat)
      ensures Valid() && this.w == w && this.h == h && users == {}
      ensures forall l <- all :: fresh(l) && l.nodes == []
    {
      var rows: seq<seq<UserList>> := [];
      for y := 0 to h
        invariant |rows| == y
        invariant forall i :: 0 <= i < y ==> |rows[i]| == w
        invariant forall i, j :: 0 <= i < y && 0 <= j < w ==>
                    fresh(rows[i][j]) && EmptyList(rows[i][j], j, i)
      {
        var row := NewRow(w, y);
        rows := rows + [row];
      }
      this.w, this.h, this.lists := w, h, rows;
      this.all := set i, j | 0 <= i < h && 0 <= j < w :: rows[i][j];
      made, users := {}, {};
    }
  }

  ghost predicate EmptyList(l: UserList, x: int, y: int)
    reads l
  {
    l.nodes == [] && l.Valid() && l.x == x && l.y == y
  }

  method NewRow(w: nat, y: nat) returns (row: seq<UserList>)
    ensures |row| == w && forall j :: 0 <= j < w ==> fresh(row[j]) && EmptyList(row[j], j, y)
  {
    row := [];
    for x := 0 to w
      invariant |row| == x && forall j :: 0 <= j < x ==> fresh(row[j]) && EmptyList(row[j], j, y)
    {
      var l := new UserList(x, y);
      row := row + [l];
    }
  }
}
