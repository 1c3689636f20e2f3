/** The instruction store of the operator terminal (terminal_functions.h): an
    ordered list of flag-annotated instructions, its index-checked push, edit and
    delete, the consistency sweep that prunes references to undefined layers, the
    flag dispatcher, and the per-frame executor that replays the list into layers.

    The integer parser the source calls (parseInteger, canParseInteger) is not
    part of the shown revision; it is a pair of uninterpreted functions held by
    the store. The image catalogue's doesImageExist is membership in the
    canvas's set of image names. */
module Instructions {
  import opened Display

  // Flags the grammar attaches to commands.
  const EXIT: int := 0
  const HELP: int := 1
  const CLEAR: int := 2
  const DISPLAY: int := 5
  const PRINT: int := 6
  const PUSH: int := 10
  const PUSH_AT: int := 11
  const EDIT: int := 12
  const DELETE: int := 13
  const LAYER: int := 20
  const PROCESS: int := 21
  const DRAW: int := 22
  const RESIZE: int := 30
  const ROTATE: int := 31
  const ALPHA: int := 32
  const TEXT: int := 33
  const OVERLAY: int := 34
  const TO_MONITOR: int := 51
  const TURN_ON: int := 53
  const CAMERA: int := 201
  const IMAGE: int := 202
  const RESIZE_DIMENSIONS: int := 300
  const ALPHA_FLAT: int := 320

  datatype Instruction = Instruction(command: seq<string>, flags: seq<int>)

  /** containsFlag: a front-to-back scan of the flags. */
  function ContainsFlag(inst: Instruction, query: int): (b: bool)
    ensures b <==> query in inst.flags
    decreases |inst.flags|
  {
    if inst.flags == [] then false
    else inst.flags[0] == query || ContainsFlag(inst.(flags := inst.flags[1..]), query)
  }

  /** The tokens each kind of stored instruction is read at, as the grammar
      guarantees them (`layer NAME camera`, `layer NAME image FILE`,
      `process NAME OP ARGS...`, `draw NAME`); reading past them is undefined
      behaviour in the source. The test order follows the source's else-if chains. */
  predicate Shaped(inst: Instruction)
  {
    var n := |inst.command|;
    if LAYER in inst.flags then n >= 2 && (IMAGE in inst.flags ==> n >= 4)
    else if PROCESS in inst.flags then
      && n >= 4
      && (RESIZE in inst.flags ==> n >= (if RESIZE_DIMENSIONS in inst.flags then 6 else 5))
      && (ALPHA in inst.flags ==> n >= (if ALPHA_FLAT in inst.flags then 5 else 6))
    else if DRAW in inst.flags then n >= 2
    else true
  }

  predicate AllShaped(list: seq<Instruction>)
  {
    forall j :: 0 <= j < |list| ==> Shaped(list[j])
  }

  /** inst is a layer instruction defining the given name. */
  predicate Defines(inst: Instruction, name: string)
  {
    LAYER in inst.flags && |inst.command| >= 2 && inst.command[1] == name
  }

  /** isInstructionValid(inst, listInd, commandInd): some instruction before
      position listInd defines a layer named by token commandInd of inst. */
  function IsInstructionValid(list: seq<Instruction>, inst: Instruction, listInd: nat, commandInd: nat): (b: bool)
    requires listInd <= |list| && commandInd < |inst.command|
    ensures b <==> exists j :: 0 <= j < listInd && Defines(list[j], inst.command[commandInd])
    decreases listInd
  {
    if listInd == 0 then false
    else (ContainsFlag(list[listInd - 1], LAYER) && |list[listInd - 1].command| >= 2
          && list[listInd - 1].command[1] == inst.command[commandInd])
         || IsInstructionValid(list, inst, listInd - 1, commandInd)
  }

  /** The refactor sweep's verdict on inst, given the instructions kept before it:
      an image layer needs its file in the catalogue, a process needs its layer
      (and, for an overlay, the overlaid layer) defined earlier, a draw its layer. */
  predicate Kept(prefix: seq<Instruction>, inst: Instruction, images: set<string>)
    requires AllShaped(prefix) && Shaped(inst)
  {
    if ContainsFlag(inst, LAYER) then
      ContainsFlag(inst, IMAGE) ==> inst.command[|inst.command| - 1] in images
    else if ContainsFlag(inst, PROCESS) then
      IsInstructionValid(prefix, inst, |prefix|, 1)
      && !(!IsInstructionValid(prefix, inst, |prefix|, 3) && ContainsFlag(inst, OVERLAY))
    else if ContainsFlag(inst, DRAW) then
      IsInstructionValid(prefix, inst, |prefix|, 1)
    else true
  }

  /** The sweep from position |kept| on, kept being what survived so far. */
  function RefactorFrom(kept: seq<Instruction>, rest: seq<Instruction>, images: set<string>): seq<Instruction>
    requires AllShaped(kept) && AllShaped(rest)
    decreases |rest|
  {
    if rest == [] then kept
    else RefactorFrom(if Kept(kept, rest[0], images) then kept + [rest[0]] else kept, rest[1..], images)
  }

  /** refactorInstructions on a whole list. */
  function Refactor(list: seq<Instruction>, images: set<string>): seq<Instruction>
    requires AllShaped(list)
  {
    RefactorFrom([], list, images)
  }

  /** Every instruction is kept by the sweep given the instructions before it. */
  predicate Consistent(list: seq<Instruction>, images: set<string>)
    requires AllShaped(list)
  {
    forall k :: 0 <= k < |list| ==> Kept(list[..k], list[k], images)
  }

  /** a is b with some elements erased, order preserved. */
  predicate Subsequence<T(==)>(a: seq<T>, b: seq<T>)
    decreases |b|
  {
    if a == [] then true
    else if b == [] then false
    else (a[0] == b[0] && Subsequence(a[1..], b[1..])) || Subsequence(a, b[1..])
  }

  /** Instructions that are neither layer, process nor draw instructions. */
  predicate Plain(inst: Instruction)
  {
    LAYER !in inst.flags && PROCESS !in inst.flags && DRAW !in inst.flags
  }

  function PlainOnes(list: seq<Instruction>): seq<Instruction>
  {
    if list == [] then []
    else (if Plain(list[0]) then [list[0]] else []) + PlainOnes(list[1..])
  }

  lemma {:induction false} PlainOnesAppend(a: seq<Instruction>, b: seq<Instruction>)
    ensures PlainOnes(a + b) == PlainOnes(a) + PlainOnes(b)
    decreases |a|
  {
    if a != [] {
      assert (a + b)[1..] == a[1..] + b;
      PlainOnesAppend(a[1..], b);
    } else {
      assert a + b == b;
    }
  }

  lemma {:induction false} RefactorFromKeepsPrefix(kept: seq<Instruction>, rest: seq<Instruction>, images: set<string>)
    requires AllShaped(kept) && AllShaped(rest)
    ensures var r := RefactorFrom(kept, rest, images);
      AllShaped(r) && |kept| <= |r| <= |kept| + |rest| && r[..|kept|] == kept
    decreases |rest|
  {
    if rest != [] {
      var r := RefactorFrom(kept, rest, images);
      if Kept(kept, rest[0], images) {
        var k2 := kept + [rest[0]];
        RefactorFromKeepsPrefix(k2, rest[1..], images);
        assert r[..|kept|] == r[..|k2|][..|kept|];
      } else {
        RefactorFromKeepsPrefix(kept, rest[1..], images);
      }
    }
  }

  /** The part the sweep appends to kept, when it keeps rest[0]: rest[0] followed by the rest. */
  lemma RefactorFromKeepStep(kept: seq<Instruction>, rest: seq<Instruction>, images: set<string>)
    requires AllShaped(kept) && AllShaped(rest) && rest != [] && Kept(kept, rest[0], images)
    ensures var r := RefactorFrom(kept, rest, images);
      |kept| < |r| && r[|kept|..] == [rest[0]] + r[|kept| + 1..]
      && r[|kept| + 1..] == RefactorFrom(kept + [rest[0]], rest[1..], images)[|kept| + 1..]
  {
    var k2 := kept + [rest[0]];
    RefactorFromKeepsPrefix(k2, rest[1..], images);
    var r := RefactorFrom(kept, rest, images);
    assert r[..|k2|] == k2;
    assert r[|kept|] == k2[|kept|];
  }

  lemma {:induction false} RefactorFromSubsequence(kept: seq<Instruction>, rest: seq<Instruction>, images: set<string>)
    requires AllShaped(kept) && AllShaped(rest)
    ensures |kept| <= |RefactorFrom(kept, rest, images)|
    ensures Subsequence(RefactorFrom(kept, rest, images)[|kept|..], rest)
    decreases |rest|
  {
    RefactorFromKeepsPrefix(kept, rest, images);
    if rest != [] {
      if Kept(kept, rest[0], images) {
        RefactorFromKeepStep(kept, rest, images);
        RefactorFromSubsequence(kept + [rest[0]], rest[1..], images);
      } else {
        RefactorFromSubsequence(kept, rest[1..], images);
      }
    }
  }

  lemma {:induction false} RefactorFromPlain(kept: seq<Instruction>, rest: seq<Instruction>, images: set<string>)
    requires AllShaped(kept) && AllShaped(rest)
    ensures |kept| <= |RefactorFrom(kept, rest, images)|
    ensures PlainOnes(RefactorFrom(kept, rest, images)[|kept|..]) == PlainOnes(rest)
    decreases |rest|
  {
    RefactorFromKeepsPrefix(kept, rest, images);
    if rest != [] {
      var r := RefactorFrom(kept, rest, images);
      if Kept(kept, rest[0], images) {
        RefactorFromKeepStep(kept, rest, images);
        RefactorFromPlain(kept + [rest[0]], rest[1..], images);
        PlainOnesAppend([rest[0]], r[|kept| + 1..]);
        PlainOnesAppend([rest[0]], rest[1..]);
        assert rest == [rest[0]] + rest[1..];
      } else {
        RefactorFromPlain(kept, rest[1..], images);
        assert !Plain(rest[0]);
      }
    }
  }

  /** The sweep only erases: its result is an order-preserving subsequence of its
      input, and instructions that carry none of flags 20, 21, 22 all survive, in order. */
  lemma RefactorErasesOnly(list: seq<Instruction>, images: set<string>)
    requires AllShaped(list)
    ensures AllShaped(Refactor(list, images))
    ensures Subsequence(Refactor(list, images), list)
    ensures PlainOnes(Refactor(list, images)) == PlainOnes(list)
  {
    RefactorFromKeepsPrefix([], list, images);
    RefactorFromSubsequence([], list, images);
    RefactorFromPlain([], list, images);
    assert Refactor(list, images)[0..] == Refactor(list, images);
  }

  lemma {:induction false} RefactorFromConsistent(kept: seq<Instruction>, rest: seq<Instruction>, images: set<string>)
    requires AllShaped(kept) && AllShaped(rest) && Consistent(kept, images)
    ensures AllShaped(RefactorFrom(kept, rest, images))
    ensures Consistent(RefactorFrom(kept, rest, images), images)
    decreases |rest|
  {
    RefactorFromKeepsPrefix(kept, rest, images);
    if rest != [] {
      if Kept(kept, rest[0], images) {
        var k2 := kept + [rest[0]];
        forall k | 0 <= k < |k2|
          ensures Kept(k2[..k], k2[k], images)
        {
          if k < |kept| {
            assert k2[..k] == kept[..k];
          } else {
            assert k2[..k] == kept;
          }
        }
        RefactorFromConsistent(k2, rest[1..], images);
      } else {
        RefactorFromConsistent(kept, rest[1..], images);
      }
    }
  }

  lemma {:induction false} RefactorFromFixes(kept: seq<Instruction>, rest: seq<Instruction>, images: set<string>)
    requires AllShaped(kept) && AllShaped(rest) && AllShaped(kept + rest) && Consistent(kept + rest, images)
    ensures RefactorFrom(kept, rest, images) == kept + rest
    decreases |rest|
  {
    if rest == [] {
      assert kept + rest == kept;
    } else {
      var l := kept + rest;
      var k2 := kept + [rest[0]];
      assert k2 + rest[1..] == l;
      assert l[..|kept|] == kept && l[|kept|] == rest[0];
      assert Kept(kept, rest[0], images) by {
        assert Kept(l[..|kept|], l[|kept|], images);
      }
      assert AllShaped(k2) by {
        forall j | 0 <= j < |k2|
          ensures Shaped(k2[j])
        {
          assert k2[j] == l[j];
        }
      }
      assert AllShaped(rest[1..]) by {
        forall j | 0 <= j < |rest| - 1
          ensures Shaped(rest[1..][j])
        {
          assert rest[1..][j] == rest[j + 1];
        }
      }
      assert RefactorFrom(kept, rest, images) == RefactorFrom(k2, rest[1..], images);
      RefactorFromFixes(k2, rest[1..], images);
    }
  }

  /** After the sweep every kept process or draw instruction names a layer
      defined earlier (an overlay also its second layer), and every kept image
      layer names an existing image; a list with that property is left alone,
      so the sweep is idempotent for a fixed catalogue. */
  lemma RefactorIdempotent(list: seq<Instruction>, images: set<string>)
    requires AllShaped(list)
    ensures AllShaped(Refactor(list, images))
    ensures Consistent(Refactor(list, images), images)
    ensures Refactor(Refactor(list, images), images) == Refactor(list, images)
  {
    RefactorFromConsistent([], list, images);
    var r := Refactor(list, images);
    assert [] + r == r;
    RefactorFromFixes([], r, images);
  }

  /** What Consistent means, spelled out per kind of instruction. */
  lemma ConsistentReferencesDefined(list: seq<Instruction>, images: set<string>, k: nat)
    requires AllShaped(list) && Consistent(list, images) && k < |list|
    ensures LAYER in list[k].flags && IMAGE in list[k].flags ==>
      list[k].command[|list[k].command| - 1] in images
    ensures LAYER !in list[k].flags && (PROCESS in list[k].flags || DRAW in list[k].flags) ==>
      exists j :: 0 <= j < k && Defines(list[j], list[k].command[1])
    ensures LAYER !in list[k].flags && PROCESS in list[k].flags && OVERLAY in list[k].flags ==>
      exists j :: 0 <= j < k && Defines(list[j], list[k].command[3])
  {
    assert Kept(list[..k], list[k], images);
    var p := list[..k];
    if LAYER !in list[k].flags && (PROCESS in list[k].flags || DRAW in list[k].flags) {
      var j :| 0 <= j < k && Defines(p[j], list[k].command[1]);
      assert p[j] == list[j];
    }
    if LAYER !in list[k].flags && PROCESS in list[k].flags && OVERLAY in list[k].flags {
      var j :| 0 <= j < k && Defines(p[j], list[k].command[3]);
      assert p[j] == list[j];
    }
  }

  // ---------------------------------------------------------------------------
  // push, edit, delete

  /** Where push puts the instruction: token 1 parsed when flag 11 is present,
      otherwise the end of the list. */
  function PushIndex(inst: Instruction, length: nat, parse: string -> int): int
    requires PUSH_AT in inst.flags ==> |inst.command| >= 2
  {
    if ContainsFlag(inst, PUSH_AT) then parse(inst.command[1]) else length
  }

  /** The stored form of a pushed instruction: its routing tokens dropped. */
  function PushTrim(inst: Instruction): Instruction
    requires |inst.command| >= (if PUSH_AT in inst.flags then 2 else 1)
  {
    Instruction(inst.command[(if ContainsFlag(inst, PUSH_AT) then 2 else 1)..], inst.flags)
  }

  /** The stored form of an edited instruction: `edit INDEX` dropped. */
  function EditTrim(inst: Instruction): Instruction
    requires |inst.command| >= 2
  {
    Instruction(inst.command[2..], inst.flags)
  }

  predicate PushAdmissible(inst: Instruction)
  {
    |inst.command| >= (if PUSH_AT in inst.flags then 2 else 1) && Shaped(PushTrim(inst))
  }

  predicate EditAdmissible(inst: Instruction)
  {
    |inst.command| >= 2 && Shaped(EditTrim(inst))
  }

  function PushEffect(list: seq<Instruction>, inst: Instruction, parse: string -> int): seq<Instruction>
    requires PushAdmissible(inst)
  {
    var p := PushIndex(inst, |list|, parse);
    if 0 <= p <= |list| then list[..p] + [PushTrim(inst)] + list[p..] else list
  }

  function EditEffect(list: seq<Instruction>, inst: Instruction, canParse: string -> bool, parse: string -> int): seq<Instruction>
    requires EditAdmissible(inst)
  {
    if canParse(inst.command[1]) then
      var e := parse(inst.command[1]);
      if 0 <= e < |list| then list[e := EditTrim(inst)] else list
    else list
  }

  function DeleteEffect(list: seq<Instruction>, inst: Instruction, canParse: string -> bool, parse: string -> int): seq<Instruction>
    requires |inst.command| >= 2
  {
    if canParse(inst.command[1]) then
      var d := parse(inst.command[1]);
      if 0 <= d < |list| then list[..d] + list[d + 1..] else list
    else list
  }

  /** push at a valid index p (0 <= p <= length) inserts the trimmed instruction
      at p, keeping everything else in order; any other index changes nothing. */
  lemma PushInserts(list: seq<Instruction>, inst: Instruction, parse: string -> int)
    requires PushAdmissible(inst)
    ensures var p := PushIndex(inst, |list|, parse); var r := PushEffect(list, inst, parse);
      if 0 <= p <= |list| then
        && |r| == |list| + 1 && r[p] == PushTrim(inst)
        && (forall k :: 0 <= k < p ==> r[k] == list[k])
        && (forall k :: p <= k < |list| ==> r[k + 1] == list[k])
      else r == list
    ensures PUSH_AT !in inst.flags ==> PushEffect(list, inst, parse) == list + [PushTrim(inst)]
  {
  }

  /** delete removes exactly element d when token 1 parses to 0 <= d < length,
      shifting the later ones down; otherwise nothing changes. */
  lemma DeleteRemoves(list: seq<Instruction>, inst: Instruction, canParse: string -> bool, parse: string -> int)
    requires |inst.command| >= 2
    ensures var r := DeleteEffect(list, inst, canParse, parse);
      if canParse(inst.command[1]) && 0 <= parse(inst.command[1]) < |list| then
        var d := parse(inst.command[1]);
        && |r| == |list| - 1
        && (forall k :: 0 <= k < d ==> r[k] == list[k])
        && (forall k :: d <= k < |r| ==> r[k] == list[k + 1])
      else r == list
  {
  }

  /** edit replaces only element e, with the command minus `edit INDEX`;
      length and every other element stay; an invalid index changes nothing. */
  lemma EditReplaces(list: seq<Instruction>, inst: Instruction, canParse: string -> bool, parse: string -> int)
    requires EditAdmissible(inst)
    ensures var r := EditEffect(list, inst, canParse, parse);
      && |r| == |list|
      && (canParse(inst.command[1]) && 0 <= parse(inst.command[1]) < |list| ==>
            r[parse(inst.command[1])] == EditTrim(inst))
      && (forall k :: 0 <= k < |list| && (!canParse(inst.command[1]) || k != parse(inst.command[1])) ==>
            r[k] == list[k])
  {
  }

  /** A push at index p followed by a delete of index p restores the list. */
  lemma PushThenDelete(list: seq<Instruction>, inst: Instruction, del: Instruction,
                       canParse: string -> bool, parse: string -> int)
    requires PushAdmissible(inst) && |del.command| >= 2
    requires 0 <= PushIndex(inst, |list|, parse) <= |list|
    requires canParse(del.command[1]) && parse(del.command[1]) == PushIndex(inst, |list|, parse)
    ensures DeleteEffect(PushEffect(list, inst, parse), del, canParse, parse) == list
  {
    var p := PushIndex(inst, |list|, parse);
    var r := PushEffect(list, inst, parse);
    assert r[..p] == list[..p];
    assert r[p + 1..] == list[p..];
    assert list == list[..p] + list[p..];
  }

  lemma ShapedAfterEdits(list: seq<Instruction>, inst: Instruction, canParse: string -> bool, parse: string -> int)
    requires AllShaped(list)
    ensures PushAdmissible(inst) ==> AllShaped(PushEffect(list, inst, parse))
    ensures EditAdmissible(inst) ==> AllShaped(EditEffect(list, inst, canParse, parse))
    ensures |inst.command| >= 2 ==> AllShaped(DeleteEffect(list, inst, canParse, parse))
  {
    if PushAdmissible(inst) {
      var p := PushIndex(inst, |list|, parse);
      if 0 <= p <= |list| {
        var r := PushEffect(list, inst, parse);
        forall k | 0 <= k < |r| ensures Shaped(r[k]) {
          if k > p { assert r[k] == list[k - 1]; }
        }
      }
    }
    if |inst.command| >= 2 && canParse(inst.command[1]) {
      var d := parse(inst.command[1]);
      if 0 <= d < |list| {
        var r := DeleteEffect(list, inst, canParse, parse);
        forall k | 0 <= k < |r| ensures Shaped(r[k]) {
          if k >= d { assert r[k] == list[k + 1]; }
        }
      }
    }
  }

  // ---------------------------------------------------------------------------
  // processFlags

  /** What the store works with besides its list: the integer parser and the catalogue. */
  datatype Env = Env(canParse: string -> bool, parse: string -> int, images: set<string>)

  /** Everything processFlags can change: the list, the run flag and the canvas. */
  datatype Session = Session(list: seq<Instruction>, running: bool, screens: Screens)

  /** What processFlags demands of its command for the flags it carries. */
  predicate Admissible(inst: Instruction)
  {
    && (PUSH in inst.flags ==> PushAdmissible(inst))
    && (EDIT in inst.flags ==> EditAdmissible(inst))
    && (DELETE in inst.flags ==> |inst.command| >= 2)
  }

  /** setDisplayOutput: flag 53 means on; flag 51 picks the monitor, else the headset. */
  function DisplayEffect(s: Screens, inst: Instruction): Screens
  {
    var output := ContainsFlag(inst, TURN_ON);
    if ContainsFlag(inst, TO_MONITOR) then SetOutputSpec(s, output, s.vive)
    else SetOutputSpec(s, s.monitor, output)
  }

  /** The effect of one flag of processFlags's switch. */
  function FlagEffect(s: Session, inst: Instruction, f: int, env: Env): (r: Session)
    requires AllShaped(s.list) && Admissible(inst) && f in inst.flags
    ensures AllShaped(r.list)
  {
    ShapedAfterEdits(s.list, inst, env.canParse, env.parse);
    if f == EXIT then s.(running := false)
    else if f == CLEAR then s.(list := [])
    else if f == DISPLAY then s.(screens := DisplayEffect(s.screens, inst))
    else if f == PUSH then
      RefactorErasesOnly(PushEffect(s.list, inst, env.parse), env.images);
      s.(list := Refactor(PushEffect(s.list, inst, env.parse), env.images))
    else if f == EDIT then
      RefactorErasesOnly(EditEffect(s.list, inst, env.canParse, env.parse), env.images);
      s.(list := Refactor(EditEffect(s.list, inst, env.canParse, env.parse), env.images))
    else if f == DELETE then
      RefactorErasesOnly(DeleteEffect(s.list, inst, env.canParse, env.parse), env.images);
      s.(list := Refactor(DeleteEffect(s.list, inst, env.canParse, env.parse), env.images))
    else s
  }

  /** processFlags after its first n flags. */
  function FlagsEffect(s: Session, inst: Instruction, n: nat, env: Env): (r: Session)
    requires AllShaped(s.list) && Admissible(inst) && n <= |inst.flags|
    ensures AllShaped(r.list)
  {
    if n == 0 then s
    else FlagEffect(FlagsEffect(s, inst, n - 1, env), inst, inst.flags[n - 1], env)
  }

  /** One flag keeps a consistent list consistent, and push, edit, delete
      (each followed by the sweep) and clear make any list consistent. */
  lemma FlagEffectConsistent(s: Session, inst: Instruction, f: int, env: Env)
    requires AllShaped(s.list) && Admissible(inst) && f in inst.flags
    requires Consistent(s.list, env.images) || f in {PUSH, EDIT, DELETE, CLEAR}
    ensures Consistent(FlagEffect(s, inst, f, env).list, env.images)
  {
    ShapedAfterEdits(s.list, inst, env.canParse, env.parse);
    if f == PUSH {
      RefactorIdempotent(PushEffect(s.list, inst, env.parse), env.images);
    } else if f == EDIT {
      RefactorIdempotent(EditEffect(s.list, inst, env.canParse, env.parse), env.images);
    } else if f == DELETE {
      RefactorIdempotent(DeleteEffect(s.list, inst, env.canParse, env.parse), env.images);
    }
  }

  /** Every list processFlags leaves behind after a push, edit, delete or clear
      among its flags, or that it started from consistent, is consistent: the
      executor never meets a dangling layer reference. */
  lemma {:induction false} FlagsEffectConsistent(s: Session, inst: Instruction, n: nat, env: Env)
    requires AllShaped(s.list) && Admissible(inst) && n <= |inst.flags|
    requires Consistent(s.list, env.images)
             || exists i :: 0 <= i < n && inst.flags[i] in {PUSH, EDIT, DELETE, CLEAR}
    ensures Consistent(FlagsEffect(s, inst, n, env).list, env.images)
  {
    if n > 0 {
      var prev := FlagsEffect(s, inst, n - 1, env);
      if Consistent(s.list, env.images)
         || exists i :: 0 <= i < n - 1 && inst.flags[i] in {PUSH, EDIT, DELETE, CLEAR} {
        FlagsEffectConsistent(s, inst, n - 1, env);
        FlagEffectConsistent(prev, inst, inst.flags[n - 1], env);
      } else {
        assert inst.flags[n - 1] in {PUSH, EDIT, DELETE, CLEAR};
        FlagEffectConsistent(prev, inst, inst.flags[n - 1], env);
      }
    }
  }

  /** The run flag ends up cleared exactly when an exit flag was processed. */
  lemma {:induction false} FlagsEffectRunning(s: Session, inst: Instruction, n: nat, env: Env)
    requires AllShaped(s.list) && Admissible(inst) && n <= |inst.flags|
    ensures FlagsEffect(s, inst, n, env).running == (s.running && EXIT !in inst.flags[..n])
  {
    if n > 0 {
      FlagsEffectRunning(s, inst, n - 1, env);
      assert inst.flags[..n] == inst.flags[..n - 1] + [inst.flags[n - 1]];
    }
  }

  /** A clear with no push, edit or delete among its flags leaves the list empty. */
  lemma {:induction false} FlagsEffectClear(s: Session, inst: Instruction, n: nat, env: Env)
    requires AllShaped(s.list) && Admissible(inst) && n <= |inst.flags|
    requires CLEAR in inst.flags[..n]
    requires PUSH !in inst.flags && EDIT !in inst.flags && DELETE !in inst.flags
    ensures FlagsEffect(s, inst, n, env).list == []
  {
    assert inst.flags[..n] == inst.flags[..n - 1] + [inst.flags[n - 1]];
    if inst.flags[n - 1] != CLEAR {
      FlagsEffectClear(s, inst, n - 1, env);
    }
  }

  // ---------------------------------------------------------------------------
  // The per-frame executor

  /** Where a layer's pixels come from. */
  datatype Source = Blank | CameraFrame | CatalogImage(file: string)

  /** The processing steps a layer goes through, with the argument tokens the
      black-box transforms receive. */
  datatype Op =
    | ResizeTo(width: string, height: string)
    | ScaleBy(factor: string)
    | RotateTo(angle: string)
    | FlatAlpha(value: string)
    | CircularAlpha(inner: string, outer: string)
    | Caption(text: string)
    | OverlayOf(top: LayerValue)

  /** A layer of one frame: its name, its source and the steps applied to it. */
  datatype LayerValue = LayerValue(name: string, source: Source, ops: seq<Op>)

  /** The layers built so far and the layers handed to the canvas, in order. */
  datatype Frame = Frame(layers: seq<LayerValue>, drawn: seq<LayerValue>)

  /** The source processInstructions_getLayer ends with after its first n flags:
      the last camera or image flag wins. */
  function LayerSource(inst: Instruction, n: nat): Source
    requires n <= |inst.flags| && (IMAGE in inst.flags ==> |inst.command| >= 4)
  {
    if n == 0 then Blank
    else if inst.flags[n - 1] == CAMERA then CameraFrame
    else if inst.flags[n - 1] == IMAGE then CatalogImage(inst.command[3])
    else LayerSource(inst, n - 1)
  }

  function NewLayer(inst: Instruction): LayerValue
    requires LAYER in inst.flags && Shaped(inst)
  {
    LayerValue(inst.command[1], LayerSource(inst, |inst.flags|), [])
  }

  /** Index of the first layer with the given name, or -1. */
  function FirstNamed(layers: seq<LayerValue>, name: string): (k: int)
    ensures -1 <= k < |layers|
    ensures 0 <= k ==> layers[k].name == name && forall j :: 0 <= j < k ==> layers[j].name != name
    ensures k == -1 ==> forall j :: 0 <= j < |layers| ==> layers[j].name != name
  {
    if layers == [] then -1
    else if layers[0].name == name then 0
    else
      var k := FirstNamed(layers[1..], name);
      if k < 0 then -1 else k + 1
  }

  predicate ProcessShaped(inst: Instruction)
  {
    && |inst.command| >= 4
    && (RESIZE in inst.flags ==> |inst.command| >= (if RESIZE_DIMENSIONS in inst.flags then 6 else 5))
    && (ALPHA in inst.flags ==> |inst.command| >= (if ALPHA_FLAT in inst.flags then 5 else 6))
  }

  /** One flag of processInstructions_processLayer applied to layer index. */
  function ProcessStep(inst: Instruction, layers: seq<LayerValue>, index: nat, f: int): seq<LayerValue>
    requires index < |layers| && ProcessShaped(inst) && f in inst.flags
  {
    var cmd := inst.command;
    var l := layers[index];
    if f == RESIZE then
      layers[index := l.(ops := l.ops + [if ContainsFlag(inst, RESIZE_DIMENSIONS) then ResizeTo(cmd[4], cmd[5]) else ScaleBy(cmd[4])])]
    else if f == ROTATE then layers[index := l.(ops := l.ops + [RotateTo(cmd[3])])]
    else if f == ALPHA then
      layers[index := l.(ops := l.ops + [if ContainsFlag(inst, ALPHA_FLAT) then FlatAlpha(cmd[4]) else CircularAlpha(cmd[4], cmd[5])])]
    else if f == TEXT then layers[index := l.(ops := l.ops + [Caption(cmd[3])])]
    else if f == OVERLAY then
      var j := FirstNamed(layers, cmd[3]);
      if j < 0 then layers else layers[index := l.(ops := l.ops + [OverlayOf(layers[j])])]
    else layers
  }

  /** The layers after the first n flags of a process instruction: only layer
      index changes, and its name and source stay. */
  function Processed(inst: Instruction, layers: seq<LayerValue>, index: nat, n: nat): (r: seq<LayerValue>)
    requires index < |layers| && ProcessShaped(inst) && n <= |inst.flags|
    ensures |r| == |layers|
    ensures r[index].name == layers[index].name && r[index].source == layers[index].source
    ensures forall k :: 0 <= k < |layers| && k != index ==> r[k] == layers[k]
  {
    if n == 0 then layers
    else ProcessStep(inst, Processed(inst, layers, index, n - 1), index, inst.flags[n - 1])
  }

  /** One instruction of processInstructions. */
  function ExecStep(fr: Frame, inst: Instruction): Frame
    requires Shaped(inst)
  {
    if ContainsFlag(inst, LAYER) then Frame(fr.layers + [NewLayer(inst)], fr.drawn)
    else if ContainsFlag(inst, PROCESS) then
      var k := FirstNamed(fr.layers, inst.command[1]);
      if k < 0 then fr else Frame(Processed(inst, fr.layers, k, |inst.flags|), fr.drawn)
    else if ContainsFlag(inst, DRAW) then
      var k := FirstNamed(fr.layers, inst.command[1]);
      if k < 0 then fr else Frame(fr.layers, fr.drawn + [fr.layers[k]])
    else fr
  }

  /** processInstructions over a whole list, starting from no layers. */
  function Execute(list: seq<Instruction>): Frame
    requires AllShaped(list)
  {
    if list == [] then Frame([], [])
    else ExecStep(Execute(list[..|list| - 1]), list[|list| - 1])
  }

  /** The layers as the layer instructions define them, before any processing. */
  function DefinedLayers(list: seq<Instruction>): seq<LayerValue>
    requires AllShaped(list)
  {
    if list == [] then []
    else
      var last := list[|list| - 1];
      DefinedLayers(list[..|list| - 1]) + (if LAYER in last.flags then [NewLayer(last)] else [])
  }

  /** The names of the draw instructions (those with neither flag 20 nor 21), in order. */
  function DrawNames(list: seq<Instruction>): seq<string>
    requires AllShaped(list)
  {
    if list == [] then []
    else
      var last := list[|list| - 1];
      DrawNames(list[..|list| - 1])
      + (if LAYER !in last.flags && PROCESS !in last.flags && DRAW in last.flags then [last.command[1]] else [])
  }

  function Stripped(layers: seq<LayerValue>): seq<LayerValue>
  {
    seq(|layers|, k requires 0 <= k < |layers| => layers[k].(ops := []))
  }

  function Names(layers: seq<LayerValue>): seq<string>
  {
    seq(|layers|, k requires 0 <= k < |layers| => layers[k].name)
  }

  /** The executor builds exactly one layer per layer instruction, in list
      order, with that instruction's name and source; processing changes only
      the steps applied to a layer. */
  lemma {:induction false} ExecuteBuildsDefinedLayers(list: seq<Instruction>)
    requires AllShaped(list)
    ensures Stripped(Execute(list).layers) == DefinedLayers(list)
  {
    if list != [] {
      var p := list[..|list| - 1];
      var x := list[|list| - 1];
      assert AllShaped(p);
      ExecuteBuildsDefinedLayers(p);
      var fr := Execute(p);
      var fr2 := Execute(list);
      assert fr2 == ExecStep(fr, x);
      if LAYER in x.flags {
        assert Stripped(fr2.layers) == Stripped(fr.layers) + [NewLayer(x)];
      } else if PROCESS in x.flags {
        var k := FirstNamed(fr.layers, x.command[1]);
        if k >= 0 {
          assert Stripped(fr2.layers) == Stripped(fr.layers);
        }
      }
    }
  }

  lemma {:induction false} DefinedLayersNamed(list: seq<Instruction>, name: string)
    requires AllShaped(list)
    ensures (exists j :: 0 <= j < |list| && Defines(list[j], name))
            <==> exists k :: 0 <= k < |DefinedLayers(list)| && DefinedLayers(list)[k].name == name
  {
    if list != [] {
      var p := list[..|list| - 1];
      var x := list[|list| - 1];
      assert AllShaped(p);
      DefinedLayersNamed(p, name);
      var dl := DefinedLayers(list);
      assert forall k :: 0 <= k < |DefinedLayers(p)| ==> dl[k] == DefinedLayers(p)[k];
      assert forall j :: 0 <= j < |p| ==> p[j] == list[j];
      if exists j :: 0 <= j < |list| && Defines(list[j], name) {
        var j :| 0 <= j < |list| && Defines(list[j], name);
        if j == |p| {
          assert dl[|dl| - 1] == NewLayer(x);
        }
      }
      if exists k :: 0 <= k < |dl| && dl[k].name == name {
        var k :| 0 <= k < |dl| && dl[k].name == name;
        if k >= |DefinedLayers(p)| {
          assert LAYER in x.flags && dl[k] == NewLayer(x);
          assert Defines(list[|p|], name);
        }
      }
    }
  }

  /** A consistent list's prefix is consistent, and its last instruction is
      kept given the prefix. */
  lemma ConsistentPrefix(list: seq<Instruction>, images: set<string>)
    requires AllShaped(list) && Consistent(list, images) && list != []
    ensures AllShaped(list[..|list| - 1])
    ensures Consistent(list[..|list| - 1], images)
    ensures Kept(list[..|list| - 1], list[|list| - 1], images)
  {
    var p := list[..|list| - 1];
    forall k | 0 <= k < |p|
      ensures Kept(p[..k], p[k], images)
    {
      assert p[..k] == list[..k];
    }
  }

  /** A draw instruction the sweep keeps finds its layer among those the
      executor has built from the instructions before it. */
  lemma DrawFindsLayer(p: seq<Instruction>, x: Instruction, images: set<string>)
    requires AllShaped(p) && Shaped(x) && Kept(p, x, images)
    requires LAYER !in x.flags && PROCESS !in x.flags && DRAW in x.flags
    ensures FirstNamed(Execute(p).layers, x.command[1]) >= 0
  {
    var name := x.command[1];
    assert IsInstructionValid(p, x, |p|, 1);
    DefinedLayersNamed(p, name);
    ExecuteBuildsDefinedLayers(p);
    var layers := Execute(p).layers;
    var k :| 0 <= k < |DefinedLayers(p)| && DefinedLayers(p)[k].name == name;
    assert Stripped(layers)[k].name == name;
    assert layers[k].name == name;
  }

  /** On a consistent list (what the sweep leaves) no draw is skipped: the
      executor hands the canvas one layer per draw instruction, in list order,
      each the first layer bearing the name the draw instruction gives. */
  lemma {:induction false} ExecuteDrawsEveryDraw(list: seq<Instruction>, images: set<string>)
    requires AllShaped(list) && Consistent(list, images)
    ensures Names(Execute(list).drawn) == DrawNames(list)
  {
    if list != [] {
      var p := list[..|list| - 1];
      var x := list[|list| - 1];
      ConsistentPrefix(list, images);
      ExecuteDrawsEveryDraw(p, images);
      var fr := Execute(p);
      assert Execute(list) == ExecStep(fr, x);
      if LAYER !in x.flags && PROCESS !in x.flags && DRAW in x.flags {
        DrawFindsLayer(p, x, images);
        var i := FirstNamed(fr.layers, x.command[1]);
        assert Execute(list).drawn == fr.drawn + [fr.layers[i]];
        assert Names(Execute(list).drawn) == Names(fr.drawn) + [x.command[1]];
      } else {
        assert Execute(list).drawn == fr.drawn;
      }
    }
  }

  // ---------------------------------------------------------------------------
  // The store object

  /** One step of the sweep at index i: the instruction there is appended to
      the kept prefix or erased, and the sweep continues with the rest. */
  lemma RefactorFromVisit(list: seq<Instruction>, i: nat, images: set<string>)
    requires AllShaped(list) && i < |list|
    ensures AllShaped(list[..i]) && AllShaped(list[i..]) && AllShaped(list[i + 1..])
    ensures Kept(list[..i], list[i], images) ==>
      RefactorFrom(list[..i], list[i..], images) == RefactorFrom(list[..i + 1], list[i + 1..], images)
    ensures !Kept(list[..i], list[i], images) ==>
      RefactorFrom(list[..i], list[i..], images)
        == RefactorFrom((list[..i] + list[i + 1..])[..i], (list[..i] + list[i + 1..])[i..], images)
  {
    var rest := list[i..];
    assert rest[0] == list[i] && rest[1..] == list[i + 1..];
    assert list[..i + 1] == list[..i] + [list[i]];
    var e := list[..i] + list[i + 1..];
    assert e[..i] == list[..i] && e[i..] == list[i + 1..];
  }

  /** Erasing one instruction keeps the rest well-formed. */
  lemma EraseKeepsShaped(list: seq<Instruction>, i: nat)
    requires AllShaped(list) && i < |list|
    ensures AllShaped(list[..i] + list[i + 1..])
  {
    var e := list[..i] + list[i + 1..];
    forall j | 0 <= j < |e|
      ensures Shaped(e[j])
    {
      if j < i {
        assert e[j] == list[j];
      } else {
        assert e[j] == list[j + 1];
      }
    }
  }

  class TerminalFunctions {
    var instructionList: seq<Instruction>
    const canvas: Canvas
    /** The shared run flag the exit command clears. */
    var running: bool
    const canParseInteger: string -> bool
    const parseInteger: string -> int

    ghost predicate Valid()
      reads this
    {
      AllShaped(instructionList)
    }

    function Environment(): Env
    {
      Env(canParseInteger, parseInteger, canvas.images)
    }

    constructor (c: Canvas, run: bool, canParse: string -> bool, parse: string -> int)
      ensures Valid() && instructionList == [] && canvas == c && running == run
      ensures canParseInteger == canParse && parseInteger == parse
    {
      instructionList := [];
      canvas := c;
      running := run;
      canParseInteger := canParse;
      parseInteger := parse;
    }

    /** isInstructionValid against the current list. */
    method CheckInstructionValid(inst: Instruction, listInd: nat, commandInd: nat) returns (b: bool)
      requires Valid() && listInd <= |instructionList| && commandInd < |inst.command|
      ensures b <==> exists j :: 0 <= j < listInd && Defines(instructionList[j], inst.command[commandInd])
    {
      var layerName := inst.command[commandInd];
      for i := 0 to listInd
        invariant forall j :: 0 <= j < i ==> !Defines(instructionList[j], layerName)
      {
        if ContainsFlag(instructionList[i], LAYER) && instructionList[i].command[1] == layerName {
          return true;
        }
      }
      return false;
    }

    method ClearInstructions()
      modifies this`instructionList
      ensures Valid() && instructionList == []
    {
      instructionList := [];
    }

    method PushInstruction(inst: Instruction)
      requires Valid() && PushAdmissible(inst)
      modifies this`instructionList
      ensures Valid() && instructionList == PushEffect(old(instructionList), inst, parseInteger)
    {
      ShapedAfterEdits(instructionList, inst, canParseInteger, parseInteger);
      var pushIndex := -1;
      var indexGiven := ContainsFlag(inst, PUSH_AT);
      if indexGiven {
        pushIndex := parseInteger(inst.command[1]);
      } else {
        pushIndex := |instructionList|;
      }
      if 0 <= pushIndex <= |instructionList| {
        var newCommand := inst.command[(if indexGiven then 2 else 1)..];
        instructionList := instructionList[..pushIndex] + [Instruction(newCommand, inst.flags)] + instructionList[pushIndex..];
      } else {
        // "Index out of range"
      }
    }

    method DeleteInstruction(inst: Instruction)
      requires Valid() && |inst.command| >= 2
      modifies this`instructionList
      ensures Valid() && instructionList == DeleteEffect(old(instructionList), inst, canParseInteger, parseInteger)
    {
      ShapedAfterEdits(instructionList, inst, canParseInteger, parseInteger);
      if canParseInteger(inst.command[1]) {
        var delIndex := parseInteger(inst.command[1]);
        if 0 <= delIndex < |instructionList| {
          instructionList := instructionList[..delIndex] + instructionList[delIndex + 1..];
        } else {
          // "Index out of range"
        }
      } else {
        // "Invalid index"
      }
    }

    method EditInstruction(inst: Instruction)
      requires Valid() && EditAdmissible(inst)
      modifies this`instructionList
      ensures Valid() && instructionList == EditEffect(old(instructionList), inst, canParseInteger, parseInteger)
    {
      ShapedAfterEdits(instructionList, inst, canParseInteger, parseInteger);
      if canParseInteger(inst.command[1]) {
        var editIndex := parseInteger(inst.command[1]);
        if 0 <= editIndex < |instructionList| {
          var newCommand := inst.command[2..];
          instructionList := instructionList[editIndex := Instruction(newCommand, inst.flags)];
        } else {
          // "Index out of range"
        }
      } else {
        // "Invalid index"
      }
    }

    /** The consistency sweep, erasing in place. */
    method RefactorInstructions()
      requires Valid()
      modifies this`instructionList
      ensures Valid() && instructionList == Refactor(old(instructionList), canvas.images)
    {
      var i := 0;
      while i < |instructionList|
        invariant 0 <= i <= |instructionList|
        invariant Valid()
        invariant RefactorFrom(instructionList[..i], instructionList[i..], canvas.images)
                  == Refactor(old(instructionList), canvas.images)
        decreases |instructionList| - i
      {
        var erase := IsIrrelevant(i);
        ghost var list := instructionList;
        RefactorFromVisit(list, i, canvas.images);
        if erase {
          // erase(begin() + i--): the next iteration looks at the same index again
          instructionList := instructionList[..i] + instructionList[i + 1..];
          EraseKeepsShaped(list, i);
        } else {
          i := i + 1;
        }
      }
      assert instructionList[i..] == [];
      assert instructionList[..i] == instructionList;
    }

    /** The body of refactorInstructions' loop at index i: whether the sweep
        erases the instruction there. */
    method IsIrrelevant(i: nat) returns (erase: bool)
      requires Valid() && i < |instructionList|
      ensures erase == !Kept(instructionList[..i], instructionList[i], canvas.images)
    {
      var inst := instructionList[i];
      erase := false;
      if ContainsFlag(inst, LAYER) {
        if ContainsFlag(inst, IMAGE) {
          if !(inst.command[|inst.command| - 1] in canvas.images) {
            erase := true;
          }
        }
      } else if ContainsFlag(inst, PROCESS) {
        var named := CheckInstructionValid(inst, i, 1);
        var overlaid := true;
        if named {
          overlaid := CheckInstructionValid(inst, i, 3);
        }
        if !named || (!overlaid && ContainsFlag(inst, OVERLAY)) {
          erase := true;
        }
      } else if ContainsFlag(inst, DRAW) {
        var named := CheckInstructionValid(inst, i, 1);
        if !named {
          erase := true;
        }
      }
    }

    method SetDisplayOutput(inst: Instruction)
      modifies canvas
      ensures canvas.State() == DisplayEffect(old(canvas.State()), inst)
    {
      var output := ContainsFlag(inst, TURN_ON);
      if ContainsFlag(inst, TO_MONITOR) {
        canvas.SetMonitorOutput(output);
      } else {
        canvas.SetViveOutput(output);
      }
    }

    /** The flag dispatcher: each flag of the command in order. */
    method ProcessFlags(command: seq<string>, flags: seq<int>)
      requires Valid() && Admissible(Instruction(command, flags))
      modifies this, canvas
      ensures Valid()
      ensures Session(instructionList, running, canvas.State())
              == FlagsEffect(Session(old(instructionList), old(running), old(canvas.State())),
                             Instruction(command, flags), |flags|, Environment())
    {
      var inst := Instruction(command, flags);
      ghost var start := Session(instructionList, running, canvas.State());
      for i := 0 to |flags|
        invariant Valid()
        invariant Session(instructionList, running, canvas.State()) == FlagsEffect(start, inst, i, Environment())
      {
        var f := flags[i];
        ghost var before := Session(instructionList, running, canvas.State());
        if f == EXIT {
          running := false;
        } else if f == HELP {
          // prints the help text
        } else if f == CLEAR {
          ClearInstructions();
        } else if f == DISPLAY {
          SetDisplayOutput(inst);
        } else if f == PRINT {
          // prints the list when flag 61 is present
        } else if f == PUSH {
          PushInstruction(inst);
          RefactorInstructions();
        } else if f == EDIT {
          EditInstruction(inst);
          RefactorInstructions();
        } else if f == DELETE {
          DeleteInstruction(inst);
          RefactorInstructions();
        }
        assert Session(instructionList, running, canvas.State()) == FlagEffect(before, inst, f, Environment());
      }
    }

    /** processInstructions_getLayer: the source from the flags, then the name. */
    method GetLayer(inst: Instruction) returns (result: LayerValue)
      requires LAYER in inst.flags && Shaped(inst)
      ensures result == NewLayer(inst)
    {
      var source := Blank;
      for i := 0 to |inst.flags|
        invariant source == LayerSource(inst, i)
      {
        if inst.flags[i] == CAMERA {
          source := CameraFrame;
        } else if inst.flags[i] == IMAGE {
          source := CatalogImage(inst.command[3]);
        }
      }
      result := LayerValue(inst.command[1], source, []);
    }

    /** The first layer with the given name, or -1 (the search loops of processInstructions). */
    method FindLayer(layers: seq<LayerValue>, name: string) returns (k: int)
      ensures -1 <= k < |layers|
      ensures 0 <= k ==> layers[k].name == name && forall j :: 0 <= j < k ==> layers[j].name != name
      ensures k == -1 ==> forall j :: 0 <= j < |layers| ==> layers[j].name != name
    {
      for i := 0 to |layers|
        invariant forall j :: 0 <= j < i ==> layers[j].name != name
      {
        if layers[i].name == name {
          return i;
        }
      }
      return -1;
    }

    /** processInstructions_processLayer: apply each flag of a process instruction to layer index. */
    method ProcessLayer(inst: Instruction, layers: seq<LayerValue>, index: nat) returns (result: seq<LayerValue>)
      requires index < |layers| && ProcessShaped(inst)
      ensures result == Processed(inst, layers, index, |inst.flags|)
    {
      result := layers;
      for n := 0 to |inst.flags|
        invariant result == Processed(inst, layers, index, n)
      {
        var f := inst.flags[n];
        var l := result[index];
        if f == RESIZE {
          if ContainsFlag(inst, RESIZE_DIMENSIONS) {
            result := result[index := l.(ops := l.ops + [ResizeTo(inst.command[4], inst.command[5])])];
          } else {
            result := result[index := l.(ops := l.ops + [ScaleBy(inst.command[4])])];
          }
        } else if f == ROTATE {
          result := result[index := l.(ops := l.ops + [RotateTo(inst.command[3])])];
        } else if f == ALPHA {
          if ContainsFlag(inst, ALPHA_FLAT) {
            result := result[index := l.(ops := l.ops + [FlatAlpha(inst.command[4])])];
          } else {
            result := result[index := l.(ops := l.ops + [CircularAlpha(inst.command[4], inst.command[5])])];
          }
        } else if f == TEXT {
          result := result[index := l.(ops := l.ops + [Caption(inst.command[3])])];
        } else if f == OVERLAY {
          var j := FindLayer(result, inst.command[3]);
          if j >= 0 {
            result := result[index := l.(ops := l.ops + [OverlayOf(result[j])])];
          }
        }
      }
    }

    /** processInstructions: replay the list into this frame's layers and draws. */
    method ProcessInstructions() returns (frame: Frame)
      requires Valid()
      ensures frame == Execute(instructionList)
    {
      var layers: seq<LayerValue> := [];
      var drawn: seq<LayerValue> := [];
      for i := 0 to |instructionList|
        invariant Frame(layers, drawn) == Execute(instructionList[..i])
      {
        var inst := instructionList[i];
        assert instructionList[..i + 1][..i] == instructionList[..i];
        if ContainsFlag(inst, LAYER) {
          var l := GetLayer(inst);
          layers := layers + [l];
        } else if ContainsFlag(inst, PROCESS) {
          var k := FindLayer(layers, inst.command[1]);
          if k >= 0 {
            layers := ProcessLayer(inst, layers, k);
          }
        } else if ContainsFlag(inst, DRAW) {
          var k := FindLayer(layers, inst.command[1]);
          if k >= 0 {
            drawn := drawn + [layers[k]];
          }
        }
      }
      assert instructionList[..|instructionList|] == instructionList;
      frame := Frame(layers, drawn);
    }
  }
}
