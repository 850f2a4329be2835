/** Turning protoc include-path flags (`-I dir`, `--proto_path dir`, `-Idir`,
    `--proto_path=dir`, each value a ':'-separated list of `dir` or
    `prefix=dir`) into an ordered list of path substitutions. */
module RelativePaths {

  import opened Wrappers
  import opened Strings
  import opened KytheProto
  import opened SeqLemmas

  /** A (logical prefix, physical root) pair; an empty prefix matches unprefixed paths. */
  type Substitution = (string, string)

  // ---------------------------------------------------------------------
  // Splitting a flag value

  /** The pieces of `s` between occurrences of `sep`, empty pieces included. */
  function Split(s: string, sep: char): (parts: seq<string>)
    ensures |parts| >= 1
    ensures forall i :: 0 <= i < |parts| ==> sep !in parts[i]
  {
    if s == [] then [""]
    else
      var rest := Split(s[1..], sep);
      if s[0] == sep then [""] + rest
      else [[s[0]] + rest[0]] + rest[1..]
  }

  /** The pieces glued back together with `sep` between them. */
  function Join(parts: seq<string>, sep: char): string
    requires |parts| >= 1
  {
    if |parts| == 1 then parts[0] else parts[0] + [sep] + Join(parts[1..], sep)
  }

  lemma {:induction false} JoinPrepend(c: char, parts: seq<string>, sep: char)
    requires |parts| >= 1
    ensures Join([[c] + parts[0]] + parts[1..], sep) == [c] + Join(parts, sep)
  {
    var q := [[c] + parts[0]] + parts[1..];
    assert q[1..] == parts[1..];
  }

  /** Splitting loses nothing: the pieces rejoined give back the input. */
  lemma {:induction false} JoinSplit(s: string, sep: char)
    ensures Join(Split(s, sep), sep) == s
  {
    if s != [] {
      var rest := Split(s[1..], sep);
      JoinSplit(s[1..], sep);
      if s[0] == sep {
        assert ([""] + rest)[1..] == rest;
      } else {
        JoinPrepend(s[0], rest, sep);
      }
      assert s == [s[0]] + s[1..];
    }
  }

  /** Splitting at one separator splits the two sides independently. */
  lemma {:induction false} SplitAtSeparator(a: string, b: string, sep: char)
    ensures Split(a + [sep] + b, sep) == Split(a, sep) + Split(b, sep)
  {
    if a == [] {
      assert a + [sep] + b == [sep] + b && ([sep] + b)[1..] == b;
    } else {
      var s := a + [sep] + b;
      assert s[0] == a[0] && s[1..] == a[1..] + [sep] + b;
      SplitAtSeparator(a[1..], b, sep);
      var rest := Split(a[1..], sep) + Split(b, sep);
      if a[0] != sep {
        assert rest[0] == Split(a[1..], sep)[0];
        assert rest[1..] == Split(a[1..], sep)[1..] + Split(b, sep);
      }
    }
  }

  /** A string without the separator is one piece. */
  lemma {:induction false} SplitWithoutSeparator(s: string, sep: char)
    requires sep !in s
    ensures Split(s, sep) == [s]
  {
    if s != [] {
      SplitWithoutSeparator(s[1..], sep);
      assert s == [s[0]] + s[1..];
    }
  }

  /** The non-empty pieces, in order (absl::SkipEmpty). */
  function SkipEmpty(parts: seq<string>): (kept: seq<string>)
    ensures |kept| <= |parts|
    ensures forall p :: p in kept <==> p in parts && p != []
  {
    if parts == [] then []
    else (if parts[0] == [] then [] else [parts[0]]) + SkipEmpty(parts[1..])
  }

  /** Dropping empty pieces keeps the order: it works piece by piece. */
  lemma {:induction false} SkipEmptyAppend(a: seq<string>, b: seq<string>)
    ensures SkipEmpty(a + b) == SkipEmpty(a) + SkipEmpty(b)
  {
    if a != [] {
      assert (a + b)[0] == a[0] && (a + b)[1..] == a[1..] + b;
      SkipEmptyAppend(a[1..], b);
    } else {
      assert a + b == b;
    }
  }

  /** The parts of a path flag's value: split on ':' with empty parts dropped. */
  function PathParts(value: string): (parts: seq<string>)
    ensures forall i :: 0 <= i < |parts| ==> parts[i] != [] && ':' !in parts[i]
    ensures forall p :: p in parts <==> p in Split(value, ':') && p != []
  {
    var kept := SkipEmpty(Split(value, ':'));
    assert forall i :: 0 <= i < |kept| ==> kept[i] in Split(value, ':');
    kept
  }

  /** The parts of `a:b` are those of `a`, then those of `b`, in order. */
  lemma PathPartsConcat(a: string, b: string)
    ensures PathParts(a + ":" + b) == PathParts(a) + PathParts(b)
  {
    SplitAtSeparator(a, b, ':');
    SkipEmptyAppend(Split(a, ':'), Split(b, ':'));
  }

  /** A non-empty value without ':' is a single part. */
  lemma PathPartsSingle(value: string)
    requires value != [] && ':' !in value
    ensures PathParts(value) == [value]
  {
    SplitWithoutSeparator(value, ':');
  }

  /** A value yields no part exactly when it is made of ':' only (the empty value included). */
  lemma {:induction false} NoPartsIffOnlyColons(value: string)
    ensures PathParts(value) == [] <==> forall k :: 0 <= k < |value| ==> value[k] == ':'
  {
    if value != [] {
      NoPartsIffOnlyColons(value[1..]);
      var rest := Split(value[1..], ':');
      if value[0] == ':' {
        assert Split(value, ':') == [""] + rest;
        assert ([""] + rest)[1..] == rest;
        assert forall k :: 1 <= k < |value| ==> value[k] == value[1..][k - 1];
      } else {
        assert PathParts(value) != [];
      }
    }
  }

  /** The index of the first occurrence of `c` in `s` (std::string::find_first_of). */
  function FindFirst(s: string, c: char): (r: Option<nat>)
    ensures r.None? <==> c !in s
    ensures r.Some? ==> r.value < |s| && s[r.value] == c && c !in s[..r.value]
  {
    if s == [] then None
    else if s[0] == c then Some(0)
    else
      match FindFirst(s[1..], c)
      case None => None
      case Some(i) =>
        assert s[..i + 1] == [s[0]] + s[1..][..i];
        Some(i + 1)
  }

  /** The substitution one part denotes: `dir` maps the empty prefix to
      CleanPath(dir); `prefix=dir` splits at the FIRST '='. */
  function SubstitutionFor(part: string, cleanPath: string -> string): (sub: Substitution)
    ensures '=' !in part ==> sub == ("", cleanPath(part))
    ensures forall k :: 0 <= k < |part| && part[k] == '=' && '=' !in part[..k] ==>
              sub == (cleanPath(part[..k]), cleanPath(part[k + 1..]))
  {
    match FindFirst(part, '=')
    case None => ("", cleanPath(part))
    case Some(i) =>
      (cleanPath(part[..i]), cleanPath(part[i + 1..]))
  }

  /** `prefix=root` with no '=' in `prefix` maps `prefix` to `root`, whatever
      further '='s `root` holds. */
  lemma SubstitutionSplitsAtFirstEquals(prefix: string, root: string, cleanPath: string -> string)
    requires '=' !in prefix
    ensures SubstitutionFor(prefix + "=" + root, cleanPath) == (cleanPath(prefix), cleanPath(root))
  {
    var part := prefix + "=" + root;
    assert part[|prefix|] == '=' && part[..|prefix|] == prefix && part[|prefix| + 1..] == root;
  }

  /** The substitutions one flag value adds, in order. */
  function Expansion(value: string, cleanPath: string -> string): seq<Substitution> {
    var parts := PathParts(value);
    seq(|parts|, i requires 0 <= i < |parts| => SubstitutionFor(parts[i], cleanPath))
  }

  /** Appends the substitutions of one flag value to `substitutions`, one per
      part, in order; what was there before is kept as a prefix. */
  method AddPathSubstitutions(pathArgument: string, cleanPath: string -> string,
                              substitutions: seq<Substitution>)
    returns (result: seq<Substitution>)
    ensures result == substitutions + Expansion(pathArgument, cleanPath)
  {
    var parts := PathParts(pathArgument);
    result := substitutions;
    ghost var added: seq<Substitution> := [];
    for i := 0 to |parts|
      invariant result == substitutions + added
      invariant |added| == i
      invariant forall k :: 0 <= k < i ==> added[k] == SubstitutionFor(parts[k], cleanPath)
    {
      var part := parts[i];
      ghost var sub := SubstitutionFor(part, cleanPath);
      match FindFirst(part, '=') {
        case None =>
          assert sub == ("", cleanPath(part));
          result := result + [("", cleanPath(part))];
        case Some(equalsPos) =>
          assert sub == (cleanPath(part[..equalsPos]), cleanPath(part[equalsPos + 1..]));
          result := result + [(cleanPath(part[..equalsPos]), cleanPath(part[equalsPos + 1..]))];
      }
      ConcatAssoc(substitutions, added, [sub]);
      added := added + [sub];
    }
    assert added == Expansion(pathArgument, cleanPath);
  }

  // ---------------------------------------------------------------------
  // Scanning the argument list

  /** A token that makes the NEXT token a path value. */
  predicate IsPathFlag(argument: string) {
    argument == "-I" || argument == "--proto_path"
  }

  /** A token that carries its path value itself. */
  predicate IsJoinedPathFlag(argument: string) {
    HasPrefix(argument, "-I") || HasPrefix(argument, "--proto_path=")
  }

  /** What the scanner has seen: the path values consumed so far, and whether
      the next token is awaited as a path value. */
  datatype ScanState = ScanState(values: seq<string>, expecting: bool)

  const Start := ScanState([], false)

  /** The scanner's reaction to one token. An awaited value is taken as it is,
      whatever it looks like; otherwise an exact flag makes the next token the
      value, a `-I` or `--proto_path=` prefix carries the value in the token,
      and anything else is skipped. */
  function Step(state: ScanState, argument: string): ScanState {
    if state.expecting then ScanState(state.values + [argument], false)
    else if IsPathFlag(argument) then ScanState(state.values, true)
    else if HasPrefix(argument, "-I") then ScanState(state.values + [argument[2..]], false)
    else if HasPrefix(argument, "--proto_path=") then ScanState(state.values + [argument[13..]], false)
    else ScanState(state.values, false)
  }

  /** The scanner's state after the tokens of `arguments`, from `state`. */
  function ScanFrom(state: ScanState, arguments: seq<string>): ScanState {
    if arguments == [] then state
    else Step(ScanFrom(state, arguments[..|arguments| - 1]), arguments[|arguments| - 1])
  }

  /** The path values of a whole argument list, in order. */
  function PathValues(arguments: seq<string>): seq<string> {
    ScanFrom(Start, arguments).values
  }

  /** Whether the argument list ends with a flag still waiting for its value. */
  function Dangling(arguments: seq<string>): bool {
    ScanFrom(Start, arguments).expecting
  }

  /** The substitutions of a list of path values, value after value. */
  function ExpandAll(values: seq<string>, cleanPath: string -> string): seq<Substitution>
  {
    if values == [] then []
    else ExpandAll(values[..|values| - 1], cleanPath) + Expansion(values[|values| - 1], cleanPath)
  }

  lemma ExpandAllSnoc(prior: seq<Substitution>, values: seq<string>, value: string, cleanPath: string -> string)
    ensures prior + ExpandAll(values + [value], cleanPath) ==
            (prior + ExpandAll(values, cleanPath)) + Expansion(value, cleanPath)
  {
    assert (values + [value])[..|values|] == values;
  }

  /** The working-directory substitution, used only when no path value was consumed. */
  function Fallback(values: seq<string>, workingDirectory: string, cleanPath: string -> string): seq<Substitution>
  {
    if values == [] && workingDirectory != "" then [("", cleanPath(workingDirectory))] else []
  }

  /** Everything ParsePathSubstitutions appends for `unit`. */
  function ParsedSubstitutions(unit: CompilationUnit, cleanPath: string -> string): seq<Substitution>
  {
    var values := PathValues(unit.arguments);
    ExpandAll(values, cleanPath) + Fallback(values, unit.workingDirectory, cleanPath)
  }

  /** A step only appends to the values already consumed. */
  lemma StepKeepsValues(values: seq<string>, expecting: bool, argument: string)
    ensures Step(ScanState(values, expecting), argument) ==
            ScanState(values + Step(ScanState([], expecting), argument).values,
                      Step(ScanState([], expecting), argument).expecting)
  {
  }

  /** One token of the argument scan: the path value it supplies, if any,
      and whether the next token is expected to be a path value. */
  method ScanArgument(expectingPathArg: bool, argument: string)
    returns (pathValue: Option<string>, expectingNext: bool)
    ensures Step(ScanState([], expectingPathArg), argument) ==
            ScanState(if pathValue.Some? then [pathValue.value] else [], expectingNext)
  {
    pathValue, expectingNext := None, false;
    if expectingPathArg {
      pathValue := Some(argument);
    } else if argument == "-I" || argument == "--proto_path" {
      expectingNext := true;
    } else if HasPrefix(argument, "-I") {
      pathValue := Some(argument[2..]);
    } else if HasPrefix(argument, "--proto_path=") {
      pathValue := Some(argument[13..]);
    }
  }

  /** Appends to `substitutions` the path substitutions named by the unit's
      arguments, or the working directory when no path flag supplied a value. */
  method ParsePathSubstitutions(unit: CompilationUnit, cleanPath: string -> string,
                                substitutions: seq<Substitution>)
    returns (result: seq<Substitution>)
    ensures result == substitutions + ParsedSubstitutions(unit, cleanPath)
  {
    result := substitutions;
    var havePaths := false;
    var expectingPathArg := false;
    ghost var values: seq<string> := [];
    var arguments := unit.arguments;
    for i := 0 to |arguments|
      invariant ScanState(values, expectingPathArg) == ScanFrom(Start, arguments[..i])
      invariant havePaths == (values != [])
      invariant result == substitutions + ExpandAll(values, cleanPath)
    {
      var argument := arguments[i];
      assert arguments[..i + 1][..i] == arguments[..i];
      var pathValue;
      StepKeepsValues(values, expectingPathArg, argument);
      pathValue, expectingPathArg := ScanArgument(expectingPathArg, argument);
      if pathValue.Some? {
        result := AddPathSubstitutions(pathValue.value, cleanPath, result);
        havePaths := true;
        ExpandAllSnoc(substitutions, values, pathValue.value, cleanPath);
        values := values + [pathValue.value];
      }
    }
    assert arguments[..|arguments|] == arguments;
    if !havePaths && unit.workingDirectory != "" {
      result := result + [("", cleanPath(unit.workingDirectory))];
    }
  }

  // ---------------------------------------------------------------------
  // Properties of the scanner

  /** Scanning a concatenation scans the second part from the state the first leaves. */
  lemma {:induction false} ScanAppend(state: ScanState, a: seq<string>, b: seq<string>)
    ensures ScanFrom(state, a + b) == ScanFrom(ScanFrom(state, a), b)
  {
    if b == [] {
      assert a + b == a;
    } else {
      assert (a + b)[..|a + b| - 1] == a + b[..|b| - 1];
      ScanAppend(state, a, b[..|b| - 1]);
    }
  }

  /** The values already consumed stay an unchanged prefix. */
  lemma {:induction false} ScanKeepsValues(state: ScanState, arguments: seq<string>)
    ensures ScanFrom(state, arguments).values ==
              state.values + ScanFrom(ScanState([], state.expecting), arguments).values
    ensures ScanFrom(state, arguments).expecting == ScanFrom(ScanState([], state.expecting), arguments).expecting
  {
    if arguments != [] {
      ScanKeepsValues(state, arguments[..|arguments| - 1]);
    }
  }

  /** An exact `-I` / `--proto_path` makes the next token the value, even a
      token that itself looks like a flag. */
  lemma FlagTakesNextToken(a: seq<string>, flag: string, value: string, b: seq<string>)
    requires !Dangling(a) && IsPathFlag(flag)
    ensures PathValues(a + [flag, value] + b) == PathValues(a) + [value] + PathValues(b)
  {
    ScanAppend(Start, a + [flag, value], b);
    ScanAppend(Start, a, [flag, value]);
    var afterA := ScanFrom(Start, a);
    assert [flag, value][..1] == [flag] && [flag][..0] == [];
    assert ScanFrom(afterA, [flag]) == ScanState(afterA.values, true);
    assert ScanFrom(afterA, [flag, value]) == Step(ScanFrom(afterA, [flag]), value);
    var afterValue := ScanFrom(Start, a + [flag, value]);
    assert afterValue == ScanState(PathValues(a) + [value], false);
    ScanKeepsValues(afterValue, b);
  }

  /** A trailing `-I` / `--proto_path` with no token after it consumes nothing
      and leaves the scanner waiting. */
  lemma TrailingFlagAddsNothing(a: seq<string>, flag: string)
    requires !Dangling(a) && IsPathFlag(flag)
    ensures PathValues(a + [flag]) == PathValues(a) && Dangling(a + [flag])
  {
    assert (a + [flag])[..|a|] == a;
  }

  /** A token that is neither a path flag nor starts with `-I` or
      `--proto_path=` (say `--proto_pathX` or `foo.proto`) is skipped. */
  lemma OtherTokenAddsNothing(a: seq<string>, other: string, b: seq<string>)
    requires !Dangling(a) && !IsPathFlag(other) && !IsJoinedPathFlag(other)
    ensures PathValues(a + [other] + b) == PathValues(a) + PathValues(b)
  {
    ScanAppend(Start, a + [other], b);
    assert (a + [other])[..|a|] == a;
    var afterOther := ScanFrom(Start, a + [other]);
    assert afterOther == ScanState(PathValues(a), false);
    ScanKeepsValues(afterOther, b);
  }

  lemma {:induction false} ScanWithoutFlags(arguments: seq<string>)
    requires forall i :: 0 <= i < |arguments| ==> !IsPathFlag(arguments[i]) && !IsJoinedPathFlag(arguments[i])
    ensures ScanFrom(Start, arguments) == Start
  {
    if arguments != [] {
      ScanWithoutFlags(arguments[..|arguments| - 1]);
    }
  }

  /** With no path flag at all, exactly the working directory is added, or
      nothing when the working directory is empty. */
  lemma FallbackWithoutFlags(unit: CompilationUnit, cleanPath: string -> string)
    requires forall i :: 0 <= i < |unit.arguments| ==>
               !IsPathFlag(unit.arguments[i]) && !IsJoinedPathFlag(unit.arguments[i])
    ensures ParsedSubstitutions(unit, cleanPath) ==
              if unit.workingDirectory == "" then [] else [("", cleanPath(unit.workingDirectory))]
  {
    ScanWithoutFlags(unit.arguments);
  }

  lemma {:induction false} ExpandAllEmpty(values: seq<string>, cleanPath: string -> string)
    requires forall i :: 0 <= i < |values| ==> PathParts(values[i]) == []
    ensures ExpandAll(values, cleanPath) == []
  {
    if values != [] {
      ExpandAllEmpty(values[..|values| - 1], cleanPath);
    }
  }

  /** A path flag whose values are empty or only ':' still counts as a path
      flag: nothing at all is added, not even the working directory. */
  lemma EmptyValuesSuppressFallback(unit: CompilationUnit, cleanPath: string -> string)
    requires PathValues(unit.arguments) != []
    requires forall i :: 0 <= i < |PathValues(unit.arguments)| ==>
               forall k :: 0 <= k < |PathValues(unit.arguments)[i]| ==> PathValues(unit.arguments)[i][k] == ':'
    ensures ParsedSubstitutions(unit, cleanPath) == []
  {
    var values := PathValues(unit.arguments);
    forall i | 0 <= i < |values| ensures PathParts(values[i]) == [] {
      NoPartsIffOnlyColons(values[i]);
    }
    ExpandAllEmpty(values, cleanPath);
  }
}
