/** The input state of src/Input.cpp and include/Input.h: a table of key
    flags indexed by GLFW key code, a pending OBJ path, and the OBJ paths
    given on the command line, cycled through with TAB. Window calls and the
    file dialog are returned as effects; the dialog's answer is a
    parameter. */
module Keyboard {
  import opened Maybe

  /** GLFW constants (GLFW/glfw3.h). */
  const KeyLast: int := 348
  const KeyMax: int := KeyLast + 1
  const KeyR: int := 82
  const KeyEscape: int := 256
  const KeyTab: int := 258
  const Release: int := 0
  const Press: int := 1
  const Repeat: int := 2

  /** The calls out of the input handler: close the window, hide or
      disable the cursor, ask the user for a file. */
  datatype Effect = CloseWindow | HideCursor | AskForFile | DisableCursor

  /** The fields of Input as one value. */
  datatype InputState = InputState(
    keys: seq<bool>,
    hasPending: bool,
    pending: string,
    argvPaths: seq<string>,
    nextArgvIndex: nat)

  /** What holds between calls: one flag per key code and the next argv
      index within the list. */
  predicate StateOk(st: InputState)
  {
    |st.keys| == KeyMax && st.nextArgvIndex <= |st.argvPaths|
  }

  /** The state of a new Input: no key down, nothing pending, no paths. */
  function Initial(): InputState
  {
    InputState(seq(KeyMax, _ => false), false, "", [], 0)
  }

  // ---------------------------------------------------------------------
  // Command-line paths

  /** The non-null, non-empty arguments, in order (`None` is a null
      argument). */
  function Kept(args: seq<Option<string>>): seq<string>
    decreases |args|
  {
    if args == [] then []
    else
      var a := args[|args| - 1];
      Kept(args[..|args| - 1]) + (if a.Some? && a.value != "" then [a.value] else [])
  }

  /** setObjPathsFromArgv keeps argv[1..]; argv[0] is the program. */
  function KeptArgs(argv: seq<Option<string>>): seq<string>
  {
    if |argv| <= 1 then [] else Kept(argv[1..])
  }

  /** Filtering a concatenation filters each part, in order. */
  lemma {:induction false} KeptAppend(xs: seq<Option<string>>, ys: seq<Option<string>>)
    ensures Kept(xs + ys) == Kept(xs) + Kept(ys)
    decreases |ys|
  {
    if ys == [] {
      assert xs + ys == xs;
    } else {
      var init := ys[..|ys| - 1];
      assert (xs + ys)[..|xs + ys| - 1] == xs + init;
      assert (xs + ys)[|xs + ys| - 1] == ys[|ys| - 1];
      KeptAppend(xs, init);
    }
  }

  /** A path is kept exactly when it is non-empty and given. */
  lemma {:induction false} KeptMembers(args: seq<Option<string>>, s: string)
    ensures s in Kept(args) <==> s != "" && Some(s) in args
    decreases |args|
  {
    if args != [] {
      var init := args[..|args| - 1];
      KeptMembers(init, s);
      assert args == init + [args[|args| - 1]];
    }
  }

  /** No more paths than arguments. */
  lemma {:induction false} KeptShorter(args: seq<Option<string>>)
    ensures |Kept(args)| <= |args|
    decreases |args|
  {
    if args != [] {
      KeptShorter(args[..|args| - 1]);
    }
  }

  // ---------------------------------------------------------------------
  // Keys and the pending path

  /** keyDown: false outside [0, KEY_MAX), the stored flag inside. */
  function KeyDownIn(st: InputState, key: int): (r: bool)
    requires StateOk(st)
    ensures key < 0 || key >= KeyMax ==> !r
    ensures 0 <= key < KeyMax ==> (r <==> st.keys[key])
  {
    if key < 0 || key >= KeyMax then false else st.keys[key]
  }

  /** setPendingObjPath. */
  function SetPending(st: InputState, path: string): InputState
  {
    st.(pending := path, hasPending := true)
  }

  /** consumePendingObjPath: the path, and the state with nothing pending. */
  function Consume(st: InputState): (InputState, string)
  {
    (st.(hasPending := false, pending := ""), st.pending)
  }

  /** A set path is what the next consume returns, whatever was pending
      before; consuming leaves nothing pending and nothing else changed. */
  lemma SetThenConsume(st: InputState, a: string, b: string)
    ensures Consume(SetPending(st, a)).1 == a
    ensures Consume(SetPending(SetPending(st, a), b)).1 == b
    ensures var c := Consume(st).0;
            !c.hasPending && c.pending == "" && c.keys == st.keys &&
            c.argvPaths == st.argvPaths && c.nextArgvIndex == st.nextArgvIndex
    ensures Consume(Consume(st).0).1 == ""
  {
  }

  /** onKey: ESC, R and TAB act on a press and leave the key table alone;
      every other key, and those three on a release or repeat, set the flag
      on a press or repeat and clear it on a release; unknown actions and
      key codes outside the table change nothing. */
  function OnKeySpec(st: InputState, key: int, action: int, picked: string): (InputState, seq<Effect>)
    requires StateOk(st)
  {
    if key == KeyEscape && action == Press then (st, [CloseWindow])
    else if key == KeyR && action == Press then (SetPending(st, ""), [])
    else if key == KeyTab && action == Press then
      if st.nextArgvIndex < |st.argvPaths| then
        (SetPending(st, st.argvPaths[st.nextArgvIndex]).(nextArgvIndex := st.nextArgvIndex + 1),
         [HideCursor, DisableCursor])
      else
        (if picked != "" then SetPending(st, picked) else st, [HideCursor, AskForFile, DisableCursor])
    else if action != Press && action != Repeat && action != Release then (st, [])
    else if 0 <= key < KeyMax then (st.(keys := st.keys[key := action != Release]), [])
    else (st, [])
  }

  /** Every key event keeps the table size and the argv index in range. */
  lemma OnKeyOk(st: InputState, key: int, action: int, picked: string)
    requires StateOk(st)
    ensures StateOk(OnKeySpec(st, key, action, picked).0)
    ensures OnKeySpec(st, key, action, picked).0.argvPaths == st.argvPaths
  {
  }

  /** ESC, R and TAB presses never touch the key table; a repeat of any
      key, or a press of any other key, sets its flag; a release clears it;
      no other flag changes, and an unknown action changes nothing. */
  lemma OnKeyTable(st: InputState, key: int, action: int, picked: string, other: int)
    requires StateOk(st) && other != key
    ensures var st' := OnKeySpec(st, key, action, picked).0;
            StateOk(st') &&
            KeyDownIn(st', other) == KeyDownIn(st, other) &&
            ((key == KeyEscape || key == KeyR || key == KeyTab) && action == Press ==> st'.keys == st.keys) &&
            (0 <= key < KeyMax && (action == Repeat || (action == Press && !(key == KeyEscape || key == KeyR || key == KeyTab))) ==>
               KeyDownIn(st', key)) &&
            (0 <= key < KeyMax && action == Release ==> !KeyDownIn(st', key)) &&
            (action != Press && action != Repeat && action != Release ==> st' == st)
  {
  }

  /** R asks for a reload: an empty path becomes pending. */
  lemma ReloadPending(st: InputState, picked: string)
    requires StateOk(st)
    ensures var st' := OnKeySpec(st, KeyR, Press, picked).0;
            st'.hasPending && st'.pending == "" && st'.keys == st.keys &&
            st'.nextArgvIndex == st.nextArgvIndex
  {
  }

  /** TAB takes the next command-line path while there is one, without
      asking; after the last one it asks, and an empty answer changes
      nothing. */
  lemma TabCycles(st: InputState, picked: string)
    requires StateOk(st)
    ensures var (st', fx) := OnKeySpec(st, KeyTab, Press, picked);
            (st.nextArgvIndex < |st.argvPaths| ==>
               st'.hasPending && st'.pending == st.argvPaths[st.nextArgvIndex] &&
               st'.nextArgvIndex == st.nextArgvIndex + 1 && AskForFile !in fx) &&
            (st.nextArgvIndex == |st.argvPaths| ==>
               AskForFile in fx && st'.nextArgvIndex == st.nextArgvIndex &&
               (picked == "" ==> st' == st) &&
               (picked != "" ==> st'.hasPending && st'.pending == picked))
  {
  }

  /** TAB presses take the command-line paths in order: after n presses
      the next press makes the path n places after the starting index
      pending. */
  lemma {:induction false} TabSequence(st: InputState, n: nat)
    requires StateOk(st) && st.nextArgvIndex + n < |st.argvPaths|
    ensures var st' := Tabs(st, n);
            StateOk(st') && st'.nextArgvIndex == st.nextArgvIndex + n && st'.argvPaths == st.argvPaths &&
            OnKeySpec(st', KeyTab, Press, "").0.pending == st.argvPaths[st.nextArgvIndex + n]
    decreases n
  {
    if n > 0 {
      TabSequence(st, n - 1);
    }
  }

  /** The state after n TAB presses with an empty dialog answer. */
  function Tabs(st: InputState, n: nat): (r: InputState)
    requires StateOk(st)
    ensures StateOk(r)
    decreases n
  {
    if n == 0 then st
    else
      var prev := Tabs(st, n - 1);
      OnKeyOk(prev, KeyTab, Press, "");
      OnKeySpec(prev, KeyTab, Press, "").0
  }

  // ---------------------------------------------------------------------
  // The object

  class Input {
    var keys: array<bool>
    var hasPending: bool
    var pending: string
    var argvPaths: seq<string>
    var nextArgvIndex: nat

    function Snapshot(): InputState
      reads this, keys
    {
      InputState(keys[..], hasPending, pending, argvPaths, nextArgvIndex)
    }

    ghost predicate Valid()
      reads this, keys
    {
      StateOk(Snapshot())
    }

    /** All flags cleared, nothing pending, no paths. */
    constructor()
      ensures Valid() && fresh(keys) && Snapshot() == Initial()
    {
      keys := new bool[KeyMax](_ => false);
      hasPending := false;
      pending := "";
      argvPaths := [];
      nextArgvIndex := 0;
    }

    /** keyDown. */
    function KeyDown(key: int): bool
      reads this, keys
      requires Valid()
    {
      KeyDownIn(Snapshot(), key)
    }

    /** setObjPathsFromArgv: the non-null, non-empty arguments after the
        program name, in order; the next index is 1 when there is one. */
    method SetObjPathsFromArgv(argv: seq<Option<string>>)
      requires Valid()
      modifies this
      ensures argvPaths == KeptArgs(argv)
      ensures nextArgvIndex == if argvPaths == [] then 0 else 1
      ensures keys == old(keys) && hasPending == old(hasPending) && pending == old(pending)
      ensures Valid()
    {
      argvPaths := [];
      nextArgvIndex := 0;
      var i := 1;
      while i < |argv|
        invariant 1 <= i && (|argv| >= 1 ==> i <= |argv|)
        invariant argvPaths == if |argv| <= 1 then [] else Kept(argv[1..i])
        invariant keys == old(keys) && hasPending == old(hasPending) && pending == old(pending)
      {
        assert argv[1..i + 1][..i - 1] == argv[1..i];
        if argv[i].Some? && argv[i].value != "" {
          argvPaths := argvPaths + [argv[i].value];
        }
        i := i + 1;
      }
      if |argv| > 1 {
        assert argv[1..i] == argv[1..];
      }
      nextArgvIndex := if argvPaths == [] then 0 else 1;
    }

    /** consumePendingObjPath. */
    method ConsumePendingObjPath() returns (path: string)
      modifies this
      ensures (Snapshot(), path) == Consume(old(Snapshot()))
      ensures keys == old(keys)
    {
      hasPending := false;
      path := pending;
      pending := "";
    }

    /** setPendingObjPath. */
    method SetPendingObjPath(path: string)
      modifies this
      ensures Snapshot() == SetPending(old(Snapshot()), path)
      ensures keys == old(keys)
    {
      pending := path;
      hasPending := true;
    }

    /** onKey, with the dialog's answer passed in and the window calls
        returned. */
    method OnKey(key: int, action: int, picked: string) returns (effects: seq<Effect>)
      requires Valid()
      modifies this, keys
      ensures keys == old(keys)
      ensures (Snapshot(), effects) == OnKeySpec(old(Snapshot()), key, action, picked)
      ensures Valid()
    {
      OnKeyOk(Snapshot(), key, action, picked);
      if key == KeyEscape && action == Press {
        return [CloseWindow];
      }
      if key == KeyR && action == Press {
        SetPendingObjPath("");
        return [];
      }
      if key == KeyTab && action == Press {
        effects := [HideCursor];
        if nextArgvIndex < |argvPaths| {
          SetPendingObjPath(argvPaths[nextArgvIndex]);
          nextArgvIndex := nextArgvIndex + 1;
          assert effects + [DisableCursor] == [HideCursor, DisableCursor];
        } else {
          effects := effects + [AskForFile];
          if picked != "" {
            SetPendingObjPath(picked);
          }
          assert effects + [DisableCursor] == [HideCursor, AskForFile, DisableCursor];
        }
        return effects + [DisableCursor];
      }
      var isDown := action == Press || action == Repeat;
      var isUp := action == Release;
      if !isDown && !isUp {
        return [];
      }
      if 0 <= key < KeyMax {
        keys[key] := isDown;
      }
      return [];
    }
  }
}
