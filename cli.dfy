/**
 * The command-line parser: the constructor copies argv, then one scan fills
 * the option map, consuming the argument after an option as its value when
 * that argument does not start with `-`.
 */
module CommandLine {
  import opened Wrappers

  /** The test `parseArguments` applies to decide that an argument is an option. */
  predicate IsOptionArg(arg: string) {
    (|arg| >= 2 && arg[..2] == "--") || (|arg| >= 1 && arg[0] == '-')
  }

  /**
   * The look-ahead test `args_[i + 1][0] != '-'`, negated. On an empty
   * argument it reads the terminating NUL, so an empty argument is a value.
   */
  predicate StartsWithDash(arg: string) {
    |arg| > 0 && arg[0] == '-'
  }

  /** One write `options_[key] = value` performed by the scan. */
  datatype Assignment = Assignment(key: string, value: string)

  /** The writes the scan performs from position `i` on, in order. */
  function Writes(args: seq<string>, i: nat): seq<Assignment>
    decreases |args| - i
  {
    if i >= |args| then []
    else if IsOptionArg(args[i]) then
      if i + 1 < |args| && !StartsWithDash(args[i + 1]) then
        [Assignment(args[i], args[i + 1])] + Writes(args, i + 2)
      else
        [Assignment(args[i], "true")] + Writes(args, i + 1)
    else
      Writes(args, i + 1)
  }

  /** Every key the scan writes starts with `-`; every value is `"true"` or an argument not starting with `-`. */
  lemma {:induction false} WritesShape(args: seq<string>, i: nat)
    ensures forall k :: 0 <= k < |Writes(args, i)| ==>
      && StartsWithDash(Writes(args, i)[k].key)
      && (Writes(args, i)[k].value == "true" || !StartsWithDash(Writes(args, i)[k].value))
    decreases |args| - i
  {
    if i < |args| {
      WritesShape(args, i + 1);
      WritesShape(args, i + 2);
    }
  }

  /** A write that comes from argv at or after position `i`: the key is an argument there, the value `"true"` or the next argument. */
  predicate WrittenFrom(args: seq<string>, i: nat, w: Assignment) {
    exists j :: i <= j < |args| && args[j] == w.key && (w.value == "true" || (j + 1 < |args| && args[j + 1] == w.value))
  }

  /**
   * Every write the scan performs from position `i` on comes from argv: its
   * key is an argument at some position `j >= i`, and its value is `"true"`
   * or the argument right after that key.
   */
  lemma {:induction false} WritesFromArgs(args: seq<string>, i: nat)
    ensures forall k :: 0 <= k < |Writes(args, i)| ==> WrittenFrom(args, i, Writes(args, i)[k])
    decreases |args| - i
  {
    if i < |args| && !IsOptionArg(args[i]) {
      WritesFromArgs(args, i + 1);
      forall k | 0 <= k < |Writes(args, i)| ensures WrittenFrom(args, i, Writes(args, i)[k]) {
        assert WrittenFrom(args, i + 1, Writes(args, i + 1)[k]);
      }
    } else if i < |args| {
      var w, next;
      if i + 1 < |args| && !StartsWithDash(args[i + 1]) {
        w, next := Assignment(args[i], args[i + 1]), i + 2;
      } else {
        w, next := Assignment(args[i], "true"), i + 1;
      }
      var rest := Writes(args, next);
      WritesCons(args, i, w, next, rest);
      WritesFromArgs(args, next);
      var ws := [w] + rest;
      forall k | 0 <= k < |ws| ensures WrittenFrom(args, i, ws[k]) {
        if k == 0 {
          assert args[i] == w.key;
        } else {
          assert ws[k] == rest[k - 1] && WrittenFrom(args, next, rest[k - 1]);
        }
      }
    }
  }

  /**
   * The scan never consumes an argument starting with `-` as a value, so a
   * scan from any earlier position reaches it: the writes from `i` are some
   * writes followed by the writes from `p`.
   */
  lemma {:induction false} WritesReach(args: seq<string>, i: nat, p: nat) returns (before: seq<Assignment>)
    requires 1 <= i <= p < |args| && StartsWithDash(args[p])
    ensures Writes(args, i) == before + Writes(args, p)
    decreases p - i
  {
    if i == p {
      before := [];
    } else if !IsOptionArg(args[i]) {
      before := WritesReach(args, i + 1, p);
    } else {
      var w, next;
      if StartsWithDash(args[i + 1]) {
        w, next := Assignment(args[i], "true"), i + 1;
      } else {
        assert i + 1 != p;
        w, next := Assignment(args[i], args[i + 1]), i + 2;
      }
      var rest := WritesReach(args, next, p);
      before := [w] + rest;
      WritesCons(args, i, w, next, rest + Writes(args, p));
      assert [w] + (rest + Writes(args, p)) == before + Writes(args, p);
    }
  }

  /** Folds the scan's step at position `i` into a known suffix. */
  lemma WritesCons(args: seq<string>, i: nat, w: Assignment, next: nat, tail: seq<Assignment>)
    requires i < |args| && IsOptionArg(args[i])
    requires next == i + 1 ==> w == Assignment(args[i], "true") && (i + 1 >= |args| || StartsWithDash(args[i + 1]))
    requires next == i + 2 ==> i + 1 < |args| && w == Assignment(args[i], args[i + 1]) && !StartsWithDash(args[i + 1])
    requires next == i + 1 || next == i + 2
    requires Writes(args, next) == tail
    ensures Writes(args, i) == [w] + tail
  {
  }

  /** The map after performing `ws` on `acc` in order: a later write to a key replaces an earlier one. */
  function Apply(acc: map<string, string>, ws: seq<Assignment>): map<string, string>
    decreases |ws|
  {
    if ws == [] then acc else Apply(acc[ws[0].key := ws[0].value], ws[1..])
  }

  /** The option map of an argument vector; the scan starts after the program name. */
  function ParseOptions(args: seq<string>): map<string, string> {
    Apply(map[], Writes(args, 1))
  }

  lemma {:induction false} ApplyAppend(acc: map<string, string>, ws: seq<Assignment>, w: Assignment)
    ensures Apply(acc, ws + [w]) == Apply(acc, ws)[w.key := w.value]
    decreases |ws|
  {
    if ws != [] {
      assert (ws + [w])[1..] == ws[1..] + [w];
      ApplyAppend(acc[ws[0].key := ws[0].value], ws[1..], w);
    }
  }

  lemma {:induction false} ApplyConcat(acc: map<string, string>, xs: seq<Assignment>, ys: seq<Assignment>)
    ensures Apply(acc, xs + ys) == Apply(Apply(acc, xs), ys)
    decreases |xs|
  {
    if xs == [] {
      assert xs + ys == ys;
    } else {
      assert (xs + ys)[0] == xs[0];
      assert (xs + ys)[1..] == xs[1..] + ys;
      ApplyConcat(acc[xs[0].key := xs[0].value], xs[1..], ys);
    }
  }

  /** Writes to other keys leave a key's entry as it was. */
  lemma {:induction false} ApplyUntouched(acc: map<string, string>, ws: seq<Assignment>, key: string)
    requires key in acc
    requires forall k :: 0 <= k < |ws| ==> ws[k].key != key
    ensures key in Apply(acc, ws) && Apply(acc, ws)[key] == acc[key]
    decreases |ws|
  {
    if ws != [] {
      ApplyUntouched(acc[ws[0].key := ws[0].value], ws[1..], key);
    }
  }

  /** Every key of the result was already a key of `acc` or is written by `ws`; so is every value. */
  lemma {:induction false} ApplyKeys(acc: map<string, string>, ws: seq<Assignment>, k: string)
    requires k in Apply(acc, ws)
    ensures (k in acc && Apply(acc, ws)[k] == acc[k])
            || exists j :: 0 <= j < |ws| && ws[j].key == k && ws[j].value == Apply(acc, ws)[k]
    decreases |ws|
  {
    if ws != [] {
      var acc1 := acc[ws[0].key := ws[0].value];
      ApplyKeys(acc1, ws[1..], k);
      if k in acc1 && Apply(acc1, ws[1..])[k] == acc1[k] {
        if k == ws[0].key {
          assert ws[0].key == k && ws[0].value == Apply(acc, ws)[k];
        }
      } else {
        var j :| 0 <= j < |ws[1..]| && ws[1..][j].key == k && ws[1..][j].value == Apply(acc, ws)[k];
        assert ws[j + 1].key == k;
      }
    }
  }

  /**
   * Only options become keys: every key is an argument after the program
   * name that starts with `-`, and its value is `"true"` or the argument
   * right after it, which does not start with `-`. Plain arguments that are
   * not consumed as values therefore add no option.
   */
  lemma OptionsShape(args: seq<string>)
    ensures forall k :: k in ParseOptions(args) ==>
      && StartsWithDash(k)
      && (ParseOptions(args)[k] == "true" || !StartsWithDash(ParseOptions(args)[k]))
      && WrittenFrom(args, 1, Assignment(k, ParseOptions(args)[k]))
  {
    forall k | k in ParseOptions(args)
      ensures StartsWithDash(k)
      ensures ParseOptions(args)[k] == "true" || !StartsWithDash(ParseOptions(args)[k])
      ensures WrittenFrom(args, 1, Assignment(k, ParseOptions(args)[k]))
    {
      var ws := Writes(args, 1);
      WritesShape(args, 1);
      WritesFromArgs(args, 1);
      ApplyKeys(map[], ws, k);
      var j :| 0 <= j < |ws| && ws[j].key == k && ws[j].value == ParseOptions(args)[k];
      assert ws[j] == Assignment(k, ParseOptions(args)[k]);
    }
  }

  lemma {:induction false} WritesIgnoreBefore(a: seq<string>, b: seq<string>, i: nat)
    requires |a| == |b| && i >= 1
    requires forall j :: 1 <= j < |a| ==> a[j] == b[j]
    ensures Writes(a, i) == Writes(b, i)
    decreases |a| - i
  {
    if i < |a| {
      WritesIgnoreBefore(a, b, i + 1);
      WritesIgnoreBefore(a, b, i + 2);
    }
  }

  /** `argv[0]` is never parsed as an option: the program name does not matter. */
  lemma ProgramNameIgnored(name1: string, name2: string, rest: seq<string>)
    ensures ParseOptions([name1] + rest) == ParseOptions([name2] + rest)
  {
    WritesIgnoreBefore([name1] + rest, [name2] + rest, 1);
  }

  /** At the end of `args`, the appended option produces exactly its own write. */
  lemma WritesAtEnd(args: seq<string>, tail: seq<string>, w: Assignment)
    requires tail == [w.key, w.value] || tail == [w.key]
    requires StartsWithDash(w.key)
    requires tail == [w.key, w.value] ==> !StartsWithDash(w.value)
    requires tail == [w.key] ==> w.value == "true"
    ensures Writes(args + tail, |args|) == [w]
  {
    var all := args + tail;
    assert all[|args|] == w.key;
    assert IsOptionArg(w.key);
    if tail == [w.key, w.value] {
      assert all[|args| + 1] == w.value;
      assert Writes(all, |args| + 2) == [];
    } else {
      assert Writes(all, |args| + 1) == [];
    }
  }

  /** Appending one option, with or without its value, after `args` adds exactly that write to the scan. */
  lemma {:induction false} WritesAppend(args: seq<string>, tail: seq<string>, i: nat, w: Assignment)
    requires 1 <= i <= |args|
    requires tail == [w.key, w.value] || tail == [w.key]
    requires StartsWithDash(w.key)
    requires tail == [w.key, w.value] ==> !StartsWithDash(w.value)
    requires tail == [w.key] ==> w.value == "true"
    ensures Writes(args + tail, i) == Writes(args, i) + [w]
    decreases |args| - i, 1
  {
    if i == |args| {
      WritesAtEnd(args, tail, w);
    } else if !IsOptionArg(args[i]) {
      assert (args + tail)[i] == args[i];
      WritesAppend(args, tail, i + 1, w);
    } else {
      WritesAppendOption(args, tail, i, w);
    }
  }

  /** The step of `WritesAppend` at an option inside `args`. */
  lemma {:induction false} WritesAppendOption(args: seq<string>, tail: seq<string>, i: nat, w: Assignment)
    requires 1 <= i < |args| && IsOptionArg(args[i])
    requires tail == [w.key, w.value] || tail == [w.key]
    requires StartsWithDash(w.key)
    requires tail == [w.key, w.value] ==> !StartsWithDash(w.value)
    requires tail == [w.key] ==> w.value == "true"
    ensures Writes(args + tail, i) == Writes(args, i) + [w]
    decreases |args| - i, 0
  {
    if i + 1 == |args| {
      WritesAppendLast(args, tail, w);
    } else {
      var all := args + tail;
      assert all[i] == args[i] && all[i + 1] == args[i + 1];
      var j := if StartsWithDash(args[i + 1]) then i + 1 else i + 2;
      var a := Assignment(args[i], if j == i + 1 then "true" else args[i + 1]);
      assert Writes(all, i) == [a] + Writes(all, j);
      assert Writes(args, i) == [a] + Writes(args, j);
      WritesAppend(args, tail, j, w);
      assert [a] + (Writes(args, j) + [w]) == ([a] + Writes(args, j)) + [w];
    }
  }

  /** An option that ends `args` sees the appended option as its look-ahead, so it still stands alone. */
  lemma WritesAppendLast(args: seq<string>, tail: seq<string>, w: Assignment)
    requires 2 <= |args| && IsOptionArg(args[|args| - 1])
    requires tail == [w.key, w.value] || tail == [w.key]
    requires StartsWithDash(w.key)
    requires tail == [w.key, w.value] ==> !StartsWithDash(w.value)
    requires tail == [w.key] ==> w.value == "true"
    ensures Writes(args + tail, |args| - 1) == Writes(args, |args| - 1) + [w]
  {
    var all, i := args + tail, |args| - 1;
    assert all[i] == args[i] && all[i + 1] == w.key;
    WritesAtEnd(args, tail, w);
    var a := Assignment(args[i], "true");
    assert Writes(all, i) == [a] + Writes(all, i + 1);
    assert Writes(args, i) == [a];
  }

  /**
   * An option given last wins: appended with a value that does not start
   * with `-` it maps to that value, appended alone it maps to `"true"`,
   * whatever came before it (a repeated option keeps its last value).
   */
  lemma LastOptionWins(args: seq<string>, key: string, value: string)
    requires |args| >= 1
    requires StartsWithDash(key)
    ensures !StartsWithDash(value) ==> key in ParseOptions(args + [key, value]) && ParseOptions(args + [key, value])[key] == value
    ensures key in ParseOptions(args + [key]) && ParseOptions(args + [key])[key] == "true"
  {
    if !StartsWithDash(value) {
      WritesAppend(args, [key, value], 1, Assignment(key, value));
      ApplyAppend(map[], Writes(args, 1), Assignment(key, value));
    }
    WritesAppend(args, [key], 1, Assignment(key, "true"));
    ApplyAppend(map[], Writes(args, 1), Assignment(key, "true"));
  }

  /**
   * The value of an option is decided by its last occurrence: an option at
   * position `p` that does not occur again maps to the next argument when
   * that does not start with `-`, and to `"true"` otherwise (another option
   * follows, or argv ends), whatever comes after it.
   */
  lemma LastOccurrenceWins(args: seq<string>, p: nat)
    requires 1 <= p < |args| && StartsWithDash(args[p])
    requires forall j :: p < j < |args| ==> args[j] != args[p]
    ensures args[p] in ParseOptions(args)
    ensures ParseOptions(args)[args[p]]
            == if p + 1 < |args| && !StartsWithDash(args[p + 1]) then args[p + 1] else "true"
  {
    var key := args[p];
    var value := if p + 1 < |args| && !StartsWithDash(args[p + 1]) then args[p + 1] else "true";
    var next := if value == "true" then p + 1 else p + 2;
    var before := WritesReach(args, 1, p);
    var rest := Writes(args, next);
    assert Writes(args, p) == [Assignment(key, value)] + rest;
    WritesFromArgs(args, next);
    forall k | 0 <= k < |rest| ensures rest[k].key != key {
      assert WrittenFrom(args, next, rest[k]);
    }
    var m := Apply(map[], before);
    ApplyConcat(map[], before, [Assignment(key, value)] + rest);
    assert ([Assignment(key, value)] + rest)[1..] == rest;
    ApplyUntouched(m[key := value], rest, key);
  }

  class Cli {
    var args: seq<string>
    var options: map<string, string>

    /** Copies argv, then parses it. */
    constructor (argv: seq<string>)
      ensures args == argv
      ensures options == ParseOptions(argv)
    {
      args := [];
      options := map[];
      new;
      var i := 0;
      while i < |argv|
        invariant 0 <= i <= |argv|
        invariant args == argv[..i]
        invariant options == map[]
      {
        args := args + [argv[i]];
        i := i + 1;
      }
      assert argv[..i] == argv;
      ParseArguments();
    }

    /** `parseArguments`: the index scan with the manual skip over a consumed value. */
    method ParseArguments()
      modifies this
      ensures args == old(args)
      ensures options == Apply(old(options), Writes(args, 1))
    {
      var i := 1;
      while i < |args|
        invariant i >= 1
        invariant args == old(args)
        invariant Apply(options, Writes(args, i)) == Apply(old(options), Writes(args, 1))
        decreases |args| - i
      {
        var arg := args[i];
        if (|arg| >= 2 && arg[..2] == "--") || (|arg| >= 1 && arg[0] == '-') {
          if i + 1 < |args| && !(|args[i + 1]| > 0 && args[i + 1][0] == '-') {
            options := options[arg := args[i + 1]];
            i := i + 1;  // skip the value
          } else {
            options := options[arg := "true"];
          }
        }
        i := i + 1;
      }
    }

    /** `hasFlag`: whether `flag` is one of the arguments, the program name and consumed values included. */
    method HasFlag(flag: string) returns (found: bool)
      ensures found <==> flag in args
    {
      for i := 0 to |args|
        invariant flag !in args[..i]
      {
        if args[i] == flag {
          return true;
        }
      }
      return false;
    }

    /** `getStringOption`: the stored value, or the default when the option is absent. */
    function GetStringOption(option: string, default: string): (r: string)
      reads this
      ensures option in options ==> r == options[option]
      ensures option !in options ==> r == default
    {
      if option in options then options[option] else default
    }

    /**
     * `getIntOption`: the stored value converted by `stoi`, or the default
     * when the option is absent or the conversion throws (`stoi` answers None).
     */
    function GetIntOption(option: string, default: int, stoi: string -> Option<int>): (r: int)
      reads this
      ensures option !in options ==> r == default
      ensures option in options && stoi(options[option]).None? ==> r == default
      ensures option in options && stoi(options[option]).Some? ==> r == stoi(options[option]).value
    {
      if option in options then
        match stoi(options[option])
        case Some(n) => n
        case None => default
      else
        default
    }
  }
}
