/**
 * The five snapshot actions and their comma-separated wire form
 * `kind,id,x,y[,gid]`: `Action.fromString` and the `toString` of each
 * action class.
 */
module Actions {
  import opened Wrappers
  import opened Text

  /** The `EAction` codes. */
  const PUZZLE_CREATE_ACTION: int := 0
  const PUZZLE_MOVE_ACTION: int := 1
  const PUZZLE_JOIN_ACTION: int := 2
  const GROUP_MOVE_ACTION: int := 3
  const GROUP_CREATE_ACTION: int := 4

  /** One action; each constructor stands for one action class. */
  datatype Action =
    | PuzzleCreate(id: int, x: int, y: int)
    | PuzzleMove(id: int, x: int, y: int)
    | PuzzleJoinGroup(id: int, x: int, y: int, gid: int)
    | GroupMove(id: int, x: int, y: int)
    | GroupCreate(id: int, x: int, y: int)

  /** The `action` tag that every instance of a class carries. */
  function Tag(a: Action): (code: int)
    ensures 0 <= code < 5
    ensures a.PuzzleCreate? <==> code == PUZZLE_CREATE_ACTION
    ensures a.PuzzleMove? <==> code == PUZZLE_MOVE_ACTION
    ensures a.PuzzleJoinGroup? <==> code == PUZZLE_JOIN_ACTION
    ensures a.GroupMove? <==> code == GROUP_MOVE_ACTION
    ensures a.GroupCreate? <==> code == GROUP_CREATE_ACTION
  {
    match a
    case PuzzleCreate(_, _, _) => PUZZLE_CREATE_ACTION
    case PuzzleMove(_, _, _) => PUZZLE_MOVE_ACTION
    case PuzzleJoinGroup(_, _, _, _) => PUZZLE_JOIN_ACTION
    case GroupMove(_, _, _) => GROUP_MOVE_ACTION
    case GroupCreate(_, _, _) => GROUP_CREATE_ACTION
  }

  /** The fields `toString` writes, in order; only a join carries its gid. */
  function Fields(a: Action): (fs: seq<int>)
    ensures |fs| == (if a.PuzzleJoinGroup? then 5 else 4)
    ensures fs[0] == Tag(a) && fs[1] == a.id && fs[2] == a.x && fs[3] == a.y
    ensures a.PuzzleJoinGroup? ==> fs[4] == a.gid
  {
    [Tag(a), a.id, a.x, a.y] + (if a.PuzzleJoinGroup? then [a.gid] else [])
  }

  function FormatAll(fs: seq<int>): (ss: seq<string>)
    ensures |ss| == |fs|
    ensures forall i :: 0 <= i < |fs| ==> ss[i] == IntToString(fs[i])
    decreases |fs|
  {
    if fs == [] then [] else [IntToString(fs[0])] + FormatAll(fs[1..])
  }

  /** The template string `${action},${id},${x},${y}` (and `,${gid}` for a join). */
  function ToString(a: Action): string
  {
    Join(FormatAll(Fields(a)), ',')
  }

  /** `actionStr.split(',').map((e) => parseInt(e, 10))`. */
  function ParseAll(parts: seq<string>): (ns: seq<Option<int>>)
    ensures |ns| == |parts|
    decreases |parts|
  {
    if parts == [] then [] else [ParseInt(parts[0])] + ParseAll(parts[1..])
  }

  lemma {:induction false} ParseAllAt(parts: seq<string>, i: nat)
    requires i < |parts|
    ensures ParseAll(parts)[i] == ParseInt(parts[i])
    decreases i
  {
    if i > 0 {
      ParseAllAt(parts[1..], i - 1);
    }
  }

  /** `actionParts[i]`, with `None` for a missing part or NaN. */
  function At(ns: seq<Option<int>>, i: nat): Option<int>
  {
    if i < |ns| then ns[i] else None
  }

  /**
   * `Action.fromString`. The code selects the class; the class's
   * constructor takes id, x, y (and gid for a join) and ignores the rest.
   * An unknown code, or a field that is not a number, gives `None`.
   */
  function FromString(s: string): Option<Action>
  {
    FromParts(ParseAll(Split(s, ',')))
  }

  /** The `switch` of `Action.fromString` over the parsed parts. */
  function FromParts(ns: seq<Option<int>>): Option<Action>
  {
    match (At(ns, 0), At(ns, 1), At(ns, 2), At(ns, 3))
    case (Some(code), Some(id), Some(x), Some(y)) =>
      if code == PUZZLE_CREATE_ACTION then Some(PuzzleCreate(id, x, y))
      else if code == PUZZLE_JOIN_ACTION then
        (match At(ns, 4)
         case Some(gid) => Some(PuzzleJoinGroup(id, x, y, gid))
         case None => None)
      else if code == GROUP_CREATE_ACTION then Some(GroupCreate(id, x, y))
      else if code == GROUP_MOVE_ACTION then Some(GroupMove(id, x, y))
      else if code == PUZZLE_MOVE_ACTION then Some(PuzzleMove(id, x, y))
      else None
    case _ => None
  }

  /**
   * What a decoded action is made of: the parsed part 0 is its tag and
   * parts 1 to 3 (and 4 for a join) its fields; a part 0 that is NaN or
   * no known code decodes to nothing.
   */
  lemma FromStringFields(s: string)
    ensures var ns := ParseAll(Split(s, ','));
            var r := FromString(s);
            (r.Some? ==> At(ns, 0) == Some(Tag(r.value)) && At(ns, 1) == Some(r.value.id)
                         && At(ns, 2) == Some(r.value.x) && At(ns, 3) == Some(r.value.y))
            && (r.Some? && r.value.PuzzleJoinGroup? ==> At(ns, 4) == Some(r.value.gid))
            && (At(ns, 0).None? ==> r.None?)
            && (At(ns, 0).Some? && !(0 <= At(ns, 0).value < 5) ==> r.None?)
  {
  }

  /** The parts of an encoded action are the decimal texts of its fields. */
  lemma SplitToString(a: Action)
    ensures Split(ToString(a), ',') == FormatAll(Fields(a))
  {
    var ss := FormatAll(Fields(a));
    forall i | 0 <= i < |ss|
      ensures ',' !in ss[i]
    {
      assert ss[i] == IntToString(Fields(a)[i]);
    }
    SplitJoin(ss, ',');
  }

  /** Decoding the encoding of any action gives back the same action. */
  lemma FromStringToString(a: Action)
    ensures FromString(ToString(a)) == Some(a)
  {
    SplitToString(a);
    var fs := Fields(a);
    var ns := ParseAll(Split(ToString(a), ','));
    forall i | 0 <= i < |fs|
      ensures ns[i] == Some(fs[i])
    {
      ParseAllAt(Split(ToString(a), ','), i);
      ParseIntOfIntToString(fs[i]);
    }
    assert At(ns, 0) == Some(Tag(a));
  }

  /** The encoding has four fields, or five for a join, and starts with the tag. */
  lemma ToStringShape(a: Action)
    ensures |Split(ToString(a), ',')| == (if a.PuzzleJoinGroup? then 5 else 4)
    ensures Split(ToString(a), ',')[0] == IntToString(Tag(a))
  {
    SplitToString(a);
  }

  /** The create-class constructors copy id, x and y and drop a trailing gid. */
  lemma CreateIgnoresGid(id: int, x: int, y: int, gid: int)
    ensures FromString(Join(FormatAll([PUZZLE_CREATE_ACTION, id, x, y, gid]), ',')) == Some(PuzzleCreate(id, x, y))
    ensures FromString(Join(FormatAll([GROUP_CREATE_ACTION, id, x, y, gid]), ',')) == Some(GroupCreate(id, x, y))
  {
    var fs1 := [PUZZLE_CREATE_ACTION, id, x, y, gid];
    var fs2 := [GROUP_CREATE_ACTION, id, x, y, gid];
    SplitFormatted(fs1);
    SplitFormatted(fs2);
  }

  /** A join whose gid field is absent is not decoded. */
  lemma JoinNeedsGid(id: int, x: int, y: int)
    ensures FromString(Join(FormatAll([PUZZLE_JOIN_ACTION, id, x, y]), ',')) == None
  {
    SplitFormatted([PUZZLE_JOIN_ACTION, id, x, y]);
  }

  /** Splitting a formatted list of integers reads every one of them back. */
  lemma SplitFormatted(fs: seq<int>)
    requires |fs| >= 1
    ensures |ParseAll(Split(Join(FormatAll(fs), ','), ','))| == |fs|
    ensures forall i :: 0 <= i < |fs| ==> ParseAll(Split(Join(FormatAll(fs), ','), ','))[i] == Some(fs[i])
  {
    var ss := FormatAll(fs);
    forall i | 0 <= i < |ss|
      ensures ',' !in ss[i]
    {
      assert ss[i] == IntToString(fs[i]);
    }
    SplitJoin(ss, ',');
    forall i | 0 <= i < |fs|
      ensures ParseAll(ss)[i] == Some(fs[i])
    {
      ParseAllAt(ss, i);
      ParseIntOfIntToString(fs[i]);
    }
  }
}
