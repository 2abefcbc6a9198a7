/** The admin rule (`bot/security.py`). */
module Security {

  /** `is_admin`: with no admins configured everybody is one; otherwise
      exactly the listed ids are. */
  function IsAdmin(admins: seq<int>, userId: int): (r: bool)
    ensures admins == [] ==> r
    ensures admins != [] ==> (r <==> userId in admins)
  {
    if admins == [] then true else userId in admins
  }

  /** Only which ids are listed matters, not their order or repetition. */
  lemma IsAdminBySet(a: seq<int>, b: seq<int>, userId: int)
    requires (set x | x in a) == (set x | x in b)
    ensures IsAdmin(a, userId) == IsAdmin(b, userId)
  {
    var sa, sb := set x | x in a, set x | x in b;
    if a != [] {
      assert a[0] in sa;
      assert b != [];
    }
    if b != [] {
      assert b[0] in sb;
      assert a != [];
    }
    assert userId in a <==> userId in sa;
    assert userId in b <==> userId in sb;
  }

  /** Adding ids to a non-empty list never takes admin rights away. */
  lemma IsAdminMonotone(a: seq<int>, extra: seq<int>, userId: int)
    requires a != [] && IsAdmin(a, userId)
    ensures IsAdmin(a + extra, userId)
  {
    assert userId in a;
    var i :| 0 <= i < |a| && a[i] == userId;
    assert (a + extra)[i] == userId;
  }
}
