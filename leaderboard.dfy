/**
 * The `/leaderboard` command's ranking: the user files are visited in
 * directory order and each one is pushed into, or compared down, a list of
 * at most three top users.
 */
module Leaderboard {
  import opened Wrappers
  import opened Text
  import opened UserFiles

  /** A user id with the record read for it. */
  datatype Entry = Entry(id: UserId, file: UserFile)

  /** The most users the board shows. */
  const BoardSize: nat := 3

  /**
   * The comparison made against each slot: a higher ascension wins;
   * otherwise a higher prestige, or an equal prestige with a higher level,
   * wins, whatever the ascensions.
   */
  predicate Better(u: UserFile, t: UserFile)
  {
    u.ascension > t.ascension || u.prestige > t.prestige || (u.prestige == t.prestige && u.level > t.level)
  }

  /** No record beats itself, so comparing a user with the slot it was just pushed into moves nothing. */
  lemma BetterIrreflexive(u: UserFile)
    ensures !Better(u, u)
  {
  }

  /** The comparison is not an ordering: two records can each beat the other. */
  lemma BetterNotAsymmetric()
    ensures exists u: UserFile, t: UserFile :: Better(u, t) && Better(t, u)
  {
    var u := NewUser.(ascension := 1);
    var t := NewUser.(prestige := 2);
    assert Better(u, t) && Better(t, u);
  }

  /**
   * The board after visiting `e`, outcome by outcome of the comparisons
   * with each slot.  It is not an insertion into a ranked list: a user who
   * beats slots 2 and 0 but not slot 1 ends up listed twice, and the old
   * slot-1 user is lost.
   */
  function Considered(top: seq<Entry>, e: Entry): (r: seq<Entry>)
    requires |top| <= BoardSize
    ensures |r| == if |top| < BoardSize then |top| + 1 else BoardSize
  {
    if |top| == 0 then [e]
    else if |top| == 1 then (if Better(e.file, top[0].file) then [e, top[0]] else [top[0], e])
    else
      var x := if |top| == 2 || Better(e.file, top[2].file) then e else top[2];
      if Better(e.file, top[1].file) then
        (if Better(e.file, top[0].file) then [e, top[0], top[1]] else [top[0], e, top[1]])
      else
        (if Better(e.file, top[0].file) then [e, top[0], x] else [top[0], top[1], x])
  }

  /**
   * The loop body for one visited user `e`: pushed while fewer than three
   * are listed, then compared with slot 2, slot 1 and slot 0 in that order;
   * beating a slot takes it, and beating slot 1 or 0 first moves that
   * slot's user one down.
   */
  method Consider(top: seq<Entry>, e: Entry) returns (r: seq<Entry>)
    requires |top| <= BoardSize
    ensures r == Considered(top, e)
    ensures |r| == if |top| < BoardSize then |top| + 1 else BoardSize
    ensures forall x :: x in r ==> x in top || x == e
    ensures |top| < BoardSize ==> e in r
    ensures |top| == 0 ==> r == [e]
    ensures |top| >= 1 && Better(e.file, top[0].file) ==> r[0] == e && r[1] == top[0]
    ensures |top| >= 1 && !Better(e.file, top[0].file) ==> r[0] == top[0]
    ensures |top| == 2 && Better(e.file, top[0].file) && !Better(e.file, top[1].file) ==> r == [e, top[0], e]
    ensures |top| == BoardSize && (forall k :: 0 <= k < BoardSize ==> !Better(e.file, top[k].file)) ==> r == top
  {
    r := top;
    if |r| < BoardSize {
      r := r + [e];
      assert r[|r| - 1] == e;
    }
    if |r| == BoardSize {
      if Better(e.file, r[2].file) {
        r := r[2 := e];
      }
    }
    if |r| >= 2 {
      if Better(e.file, r[1].file) {
        r := r[2 := r[1]];
        r := r[1 := e];
        assert r[1] == e;
      }
    }
    assert |top| < BoardSize ==> e in r;
    if |r| >= 1 {
      if Better(e.file, r[0].file) {
        r := r[1 := r[0]];
        r := r[0 := e];
        assert r[0] == e;
      }
    }
  }

  /** The user id a file name gives: the name with ".json" cut out, parsed as a u64. */
  function FileId(name: string): Option<nat>
  {
    ParseU64(RemoveAll(name, ".json"))
  }

  /** A user's own file name gives back the user's id. */
  lemma FileIdRoundTrip(id: nat)
    requires id < U64_LIMIT
    ensures FileId(Decimal(id) + ".json") == Some(id)
  {
    RemoveJsonSuffix(Decimal(id));
    ParseDecimal(id, U64_LIMIT);
  }

  /** How many of the names are numeric. */
  function NumericCount(names: seq<string>): nat
  {
    if names == [] then 0
    else NumericCount(names[..|names| - 1]) + (if FileId(names[|names| - 1]).Some? then 1 else 0)
  }

  /** The ids the names give, name by name. */
  function FileIds(names: seq<string>): (ids: seq<Option<nat>>)
    ensures |ids| == |names|
  {
    seq(|names|, k requires 0 <= k < |names| => FileId(names[k]))
  }

  /** The entry is the record of a user whose file is among `names`. */
  predicate Listed(names: seq<string>, store: UserStore, x: Entry)
    reads store
  {
    x.file == store.Get(x.id) && Some(x.id) in FileIds(names)
  }

  /** Every entry of the board is a listed user with that user's record. */
  predicate AllListed(names: seq<string>, store: UserStore, top: seq<Entry>)
    reads store
  {
    forall x :: x in top ==> Listed(names, store, x)
  }

  /** One more name: the count grows when it is numeric, and a listed user stays listed. */
  lemma ListedStep(names: seq<string>, i: nat, store: UserStore, top: seq<Entry>)
    requires i < |names| && AllListed(names[..i], store, top)
    ensures NumericCount(names[..i + 1]) == NumericCount(names[..i]) + (if FileId(names[i]).Some? then 1 else 0)
    ensures FileIds(names[..i + 1]) == FileIds(names[..i]) + [FileId(names[i])]
    ensures AllListed(names[..i + 1], store, top)
  {
    assert names[..i + 1][..i] == names[..i];
    assert FileIds(names[..i + 1]) == FileIds(names[..i]) + [FileId(names[i])];
  }

  /** The board after considering the user that name i names is still made of listed users. */
  lemma ConsideredListed(names: seq<string>, i: nat, store: UserStore, top: seq<Entry>, r: seq<Entry>)
    requires i < |names| && FileId(names[i]).Some? && AllListed(names[..i + 1], store, top)
    requires FileIds(names[..i + 1]) == FileIds(names[..i]) + [FileId(names[i])]
    requires var id := FileId(names[i]).value;
      forall x :: x in r ==> x in top || x == Entry(id, store.Get(id))
    ensures AllListed(names[..i + 1], store, r)
  {
    var ids := FileIds(names[..i + 1]);
    assert ids[i] == FileId(names[i]);
  }

  /** The board capped at three entries, for `count` numeric names. */
  function Capped(count: nat): nat
  {
    if count < BoardSize then count else BoardSize
  }

  /** The board after the names in order: each numeric name's user is considered, the rest are skipped. */
  function Board(names: seq<string>, store: UserStore): (b: seq<Entry>)
    reads store
    ensures |b| == Capped(NumericCount(names))
  {
    if names == [] then []
    else
      var before := Board(names[..|names| - 1], store);
      match FileId(names[|names| - 1])
      case Some(id) => Considered(before, Entry(id, store.Get(id)))
      case None => before
  }

  /**
   * One more name on the loop's board: a user who beats slot 0 takes it
   * and the old slot-0 user moves to slot 1; a user who beats none of a
   * full board leaves it as it was; a name that is not numeric changes nothing.
   */
  lemma BoardStep(names: seq<string>, name: string, store: UserStore)
    ensures FileId(name).None? ==> Board(names + [name], store) == Board(names, store)
    ensures FileId(name).Some? ==>
      var e := Entry(FileId(name).value, store.Get(FileId(name).value));
      var before := Board(names, store);
      var after := Board(names + [name], store);
      |after| >= 1 && after[0] in before + [e] &&
      (|before| >= 1 && Better(e.file, before[0].file) ==> after[0] == e && after[1] == before[0]) &&
      (|before| >= 1 && !Better(e.file, before[0].file) ==> after[0] == before[0]) &&
      (|before| == BoardSize && (forall k :: 0 <= k < BoardSize ==> !Better(e.file, before[k].file)) ==> after == before)
  {
    assert (names + [name])[..|names + [name]| - 1] == names;
  }

  /** One pass of the loop: name i is skipped unless it is numeric, and then its user is considered. */
  method Visit(names: seq<string>, i: nat, store: UserStore, top: seq<Entry>) returns (r: seq<Entry>)
    requires i < |names| && top == Board(names[..i], store) && AllListed(names[..i], store, top)
    ensures r == Board(names[..i + 1], store)
    ensures |r| == Capped(NumericCount(names[..i + 1])) && AllListed(names[..i + 1], store, r)
  {
    ListedStep(names, i, store, top);
    assert names[..i + 1][..i] == names[..i];
    var id := FileId(names[i]);
    r := top;
    if id.Some? {
      var e := Entry(id.value, store.Get(id.value));
      r := Consider(top, e);
      ConsideredListed(names, i, store, top, r);
    }
  }

  /**
   * `run`'s loop over the files of the users directory, in the order the
   * directory lists them: names that are not numeric are skipped; the board
   * holds as many users as there are numeric names, but never more than
   * three, and each of them is a listed user with that user's record.
   */
  method TopUsers(names: seq<string>, store: UserStore) returns (top: seq<Entry>)
    ensures top == Board(names, store)
    ensures |top| <= BoardSize
    ensures |top| == if NumericCount(names) < BoardSize then NumericCount(names) else BoardSize
    ensures forall x :: x in top ==> Listed(names, store, x)
  {
    top := [];
    var i := 0;
    while i < |names|
      invariant 0 <= i <= |names|
      invariant top == Board(names[..i], store) && AllListed(names[..i], store, top)
    {
      top := Visit(names, i, store, top);
      i := i + 1;
    }
    assert names[..|names|] == names;
  }
}
