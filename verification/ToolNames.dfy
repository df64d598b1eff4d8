/** Tool name allocation of src/feishu-service.ts. */
module ToolNames {
  import opened Collections
  import opened Text

  const MAX_NAME: nat := 64
  const STEM: nat := 56

  predicate NameChar(c: char) {
    'A' <= c <= 'Z' || 'a' <= c <= 'z' || '0' <= c <= '9' || c == '_' || c == '-'
  }

  predicate NameChars(s: string) {
    forall k :: 0 <= k < |s| ==> NameChar(s[k])
  }

  /** `replace(/[^A-Za-z0-9_-]+/g, "_")`; inRun: the character before s was replaced too. */
  function ReplaceRuns(s: string, inRun: bool): (r: string)
    ensures |r| <= |s|
  {
    if s == "" then ""
    else if NameChar(s[0]) then [s[0]] + ReplaceRuns(s[1..], false)
    else (if inRun then "" else "_") + ReplaceRuns(s[1..], true)
  }

  function StripLeft(s: string): string {
    if s != "" && s[0] == '_' then StripLeft(s[1..]) else s
  }

  function StripRight(s: string): string {
    if s != "" && s[|s| - 1] == '_' then StripRight(s[..|s| - 1]) else s
  }

  function Slice(s: string, n: nat): (r: string)
    ensures |r| <= n && r <= s
  {
    if |s| <= n then s else s[..n]
  }

  /** The name before it is cut. */
  function Sanitized(value: string): string {
    StripRight(StripLeft(ReplaceRuns(value, false)))
  }

  function SanitizeToolName(value: string): string {
    var trimmed := Slice(Sanitized(value), MAX_NAME);
    if trimmed != "" then trimmed else "tool"
  }

  lemma {:induction false} ReplacedChars(s: string, inRun: bool)
    ensures NameChars(ReplaceRuns(s, inRun))
  {
    hide NameChar;
    if s != "" {
      assert NameChar('_') by { UnderscoreIsNameChar(); }
      ReplacedChars(s[1..], !NameChar(s[0]));
    }
  }

  lemma UnderscoreIsNameChar()
    ensures NameChar('_')
  {}

  lemma {:induction false} StripLeftPart(s: string)
    ensures |StripLeft(s)| <= |s| && StripLeft(s) == s[|s| - |StripLeft(s)|..]
    ensures StripLeft(s) != "" ==> StripLeft(s)[0] != '_'
  {
    if s != "" && s[0] == '_' {
      StripLeftPart(s[1..]);
    }
  }

  lemma {:induction false} StripRightPart(s: string)
    ensures StripRight(s) <= s
    ensures StripRight(s) != "" ==> StripRight(s)[|StripRight(s)| - 1] != '_'
  {
    if s != "" && s[|s| - 1] == '_' {
      StripRightPart(s[..|s| - 1]);
    }
  }

  /** A sanitized name has 1 to 64 name characters and no underscore in front. */
  lemma SanitizedShape(value: string)
    ensures var r := SanitizeToolName(value);
            1 <= |r| <= MAX_NAME && NameChars(r) && r[0] != '_'
  {
    hide NameChar, StripLeft, StripRight, ReplaceRuns;
    var replaced := ReplaceRuns(value, false);
    var left := StripLeft(replaced);
    ReplacedChars(value, false);
    StripLeftPart(replaced);
    StripRightPart(left);
    assert NameChars("tool") by { ToolIsNameChars(); }
  }

  lemma ToolIsNameChars()
    ensures NameChars("tool")
  {}

  predicate ProperName(s: string) {
    1 <= |s| <= MAX_NAME && NameChars(s) && s[0] != '_' && s[|s| - 1] != '_'
  }

  lemma {:induction false} NameCharsKept(s: string, inRun: bool)
    requires NameChars(s)
    ensures ReplaceRuns(s, inRun) == s
  {
    hide NameChar;
    if s != "" {
      forall k | 0 <= k < |s| - 1 ensures NameChar(s[1..][k]) {
        assert NameChar(s[k + 1]);
      }
      NameCharsKept(s[1..], false);
    }
  }

  /** Sanitizing changes nothing exactly for proper names. */
  lemma SanitizeFixesProperNames(s: string)
    ensures SanitizeToolName(s) == s <==> ProperName(s)
  {
    hide NameChar, StripLeft, StripRight, ReplaceRuns;
    SanitizedShape(s);
    if NameChars(s) {
      NameCharsKept(s, false);
      StripLeftPart(s);
      StripRightPart(StripLeft(s));
      StripKeeps(s);
    }
  }

  lemma StripKeeps(s: string)
    ensures s != "" && s[0] != '_' ==> StripLeft(s) == s
    ensures s != "" && s[|s| - 1] != '_' ==> StripRight(s) == s
    ensures s != "" && s[|s| - 1] == '_' ==> |StripRight(s)| < |s|
  {
    if s != "" && s[|s| - 1] == '_' {
      StripRightPart(s[..|s| - 1]);
    }
  }

  /** The 64 character limit is cut after the underscores are stripped, so sanitizing twice differs from
      sanitizing once exactly when the name is longer and the last character that the cut leaves is an underscore. */
  lemma SanitizeTwice(value: string)
    ensures var r, s := SanitizeToolName(value), Sanitized(value);
            SanitizeToolName(r) == r <==> !(|s| > MAX_NAME && s[MAX_NAME - 1] == '_')
  {
    hide NameChar, StripLeft, StripRight, ReplaceRuns;
    SanitizedShape(value);
    StripRightPart(StripLeft(ReplaceRuns(value, false)));
    SanitizeFixesProperNames(SanitizeToolName(value));
  }

  /** It does differ: for 63 letters, an underscore and a letter. */
  lemma SanitizeTwiceCanDiffer()
    ensures var r := SanitizeToolName(seq(63, _ => 'a') + "_b"); SanitizeToolName(r) != r
  {
    hide StripLeft, StripRight, ReplaceRuns;
    var v := seq(63, _ => 'a') + "_b";
    NameCharsKept(v, false);
    StripKeeps(v);
    SanitizeTwice(v);
  }

  // ---------------------------------------------------------------- what sanitizing means

  /** At least one character, and none that a name may have. */
  predicate Gap(g: string) {
    g != "" && forall k :: 0 <= k < |g| ==> !NameChar(g[k])
  }

  /** Words and the gaps between them. */
  function Woven(words: seq<string>, gaps: seq<string>): string
    requires |words| == |gaps| + 1
  {
    if gaps == [] then words[0] else words[0] + gaps[0] + Woven(words[1..], gaps[1..])
  }

  /** Words of name characters, none but the first and the last empty, with gaps between them. */
  predicate WordsAndGaps(words: seq<string>, gaps: seq<string>) {
    && |words| == |gaps| + 1
    && (forall k :: 0 <= k < |words| ==> NameChars(words[k]))
    && (forall k :: 0 < k < |gaps| ==> words[k] != "")
    && forall k :: 0 <= k < |gaps| ==> Gap(gaps[k])
  }

  lemma TailIsWordsAndGaps(words: seq<string>, gaps: seq<string>)
    requires WordsAndGaps(words, gaps) && gaps != []
    ensures WordsAndGaps(words[1..], gaps[1..]) && (gaps[1..] != [] ==> words[1] != "")
  {
    hide NameChars, Gap;
    assert forall k :: 0 <= k < |gaps| - 1 ==> gaps[1..][k] == gaps[k + 1];
    assert forall k :: 0 <= k < |words| - 1 ==> words[1..][k] == words[k + 1];
  }

  lemma {:induction false} ReplaceWord(w: string, z: string, inRun: bool)
    requires NameChars(w)
    ensures ReplaceRuns(w + z, inRun) == if w == "" then ReplaceRuns(z, inRun) else w + ReplaceRuns(z, false)
  {
    hide NameChar;
    if w == "" {
      assert w + z == z;
    } else {
      assert (w + z)[1..] == w[1..] + z && w == [w[0]] + w[1..];
      ReplaceWord(w[1..], z, false);
    }
  }

  lemma {:induction false} ReplaceGap(g: string, z: string, inRun: bool)
    requires Gap(g)
    ensures ReplaceRuns(g + z, inRun) == (if inRun then "" else "_") + ReplaceRuns(z, true)
  {
    hide NameChar;
    assert (g + z)[1..] == g[1..] + z;
    if |g| == 1 {
      assert g[1..] + z == z;
    } else {
      ReplaceGap(g[1..], z, true);
    }
  }

  /** Every gap becomes one underscore. */
  lemma {:induction false} ReplaceWoven(words: seq<string>, gaps: seq<string>, inRun: bool)
    requires WordsAndGaps(words, gaps) && (inRun && gaps != [] ==> words[0] != "")
    ensures ReplaceRuns(Woven(words, gaps), inRun) == Join(words, "_")
  {
    hide NameChars, Gap, ReplaceRuns;
    if gaps == [] {
      assert words[0] + "" == words[0];
      ReplaceWord(words[0], "", inRun);
      ReplaceNothing();
    } else {
      var z := Woven(words[1..], gaps[1..]);
      TailIsWordsAndGaps(words, gaps);
      ReplaceWord(words[0], gaps[0] + z, inRun);
      ReplaceGap(gaps[0], z, inRun);
      ReplaceGap(gaps[0], z, false);
      ReplaceWoven(words[1..], gaps[1..], true);
      assert Woven(words, gaps) == words[0] + (gaps[0] + z);
    }
  }

  lemma ReplaceNothing()
    ensures ReplaceRuns("", false) == "" == ReplaceRuns("", true)
  {}

  /** Every text is words and gaps. */
  lemma {:induction false} Decompose(value: string) returns (words: seq<string>, gaps: seq<string>)
    ensures WordsAndGaps(words, gaps) && Woven(words, gaps) == value
  {
    hide NameChar;
    if value == "" {
      words, gaps := [""], [];
    } else {
      var c := value[0];
      words, gaps := Decompose(value[1..]);
      assert value == [c] + value[1..];
      if NameChar(c) {
        var first := [c] + words[0];
        ghost var was := words;
        words := [first] + words[1..];
        assert words[1..] == was[1..];
      } else if words[0] == "" && gaps != [] {
        ghost var was := gaps;
        gaps := [[c] + gaps[0]] + gaps[1..];
        assert gaps[1..] == was[1..];
      } else {
        ghost var wasWords, wasGaps := words, gaps;
        words, gaps := [""] + words, [[c]] + gaps;
        assert words[1..] == wasWords && gaps[1..] == wasGaps;
      }
    }
  }

  predicate Underscores(s: string) {
    forall k :: 0 <= k < |s| ==> s[k] == '_'
  }

  lemma {:induction false} StripLeftTakes(s: string)
    ensures |StripLeft(s)| <= |s| && Underscores(s[..|s| - |StripLeft(s)|])
  {
    if s != "" && s[0] == '_' {
      StripLeftTakes(s[1..]);
      var n := |s| - |StripLeft(s)|;
      assert forall k :: 0 < k < n ==> s[..n][k] == s[1..][..n - 1][k - 1];
    }
  }

  lemma {:induction false} StripRightTakes(s: string)
    ensures |StripRight(s)| <= |s| && Underscores(s[|StripRight(s)|..])
  {
    if s != "" && s[|s| - 1] == '_' {
      StripRightTakes(s[..|s| - 1]);
      var n := |StripRight(s)|;
      assert forall k :: 0 <= k < |s| - n - 1 ==> s[n..][k] == s[..|s| - 1][n..][k];
    }
  }

  /** Sanitizing any text: its words are joined by single underscores, whatever the gaps were, underscores at either
      end go, and of what is left the first 64 characters stay, or "tool" when there are none. */
  lemma SanitizeMeaning(value: string) returns (words: seq<string>, gaps: seq<string>, left: string, right: string)
    ensures WordsAndGaps(words, gaps) && Woven(words, gaps) == value
    ensures Underscores(left) && Underscores(right) && left + Sanitized(value) + right == Join(words, "_")
    ensures var s := Sanitized(value); s != "" ==> s[0] != '_' && s[|s| - 1] != '_'
    ensures var r, s := SanitizeToolName(value), Sanitized(value);
            if s == "" then r == "tool" else r <= s && (|r| == |s| || |r| == 64) && |r| <= 64
  {
    hide NameChars, Gap, ReplaceRuns, StripLeft, StripRight;
    words, gaps := Decompose(value);
    ReplaceWoven(words, gaps, false);
    var joined := ReplaceRuns(value, false);
    var l := StripLeft(joined);
    var s := StripRight(l);
    StripLeftTakes(joined);
    StripLeftPart(joined);
    StripRightTakes(l);
    StripRightPart(l);
    left, right := joined[..|joined| - |l|], l[|s|..];
    assert left + l == joined && s + right == l;
    assert left + s + right == left + (s + right);
  }

  // ---------------------------------------------------------------- unique names

  function Digit(d: nat): char requires d < 10 { '0' + d as char }

  function Decimal(n: nat): (r: string)
    ensures |r| >= 1
  {
    if n < 10 then [Digit(n)] else Decimal(n / 10) + [Digit(n % 10)]
  }

  lemma {:induction false} DecimalInjective(a: nat, b: nat)
    requires Decimal(a) == Decimal(b)
    ensures a == b
  {
    var da, db := Decimal(a), Decimal(b);
    assert da[|da| - 1] == Digit(a % 10) && db[|db| - 1] == Digit(b % 10);
    if a >= 10 && b >= 10 {
      assert da[..|da| - 1] == Decimal(a / 10) && db[..|db| - 1] == Decimal(b / 10);
      DecimalInjective(a / 10, b / 10);
    }
  }

  /** The number that digits stand for. */
  function ValueOf(digits: string): int {
    if digits == "" then 0 else 10 * ValueOf(digits[..|digits| - 1]) + (digits[|digits| - 1] as int - '0' as int)
  }

  /** Decimal writes the number with digits only and without leading zeros. */
  lemma {:induction false} DecimalValue(n: nat)
    ensures ValueOf(Decimal(n)) == n
    ensures forall k :: 0 <= k < |Decimal(n)| ==> '0' <= Decimal(n)[k] <= '9'
    ensures n > 0 ==> Decimal(n)[0] != '0'
  {
    if n < 10 {
      assert Decimal(n)[..0] == "";
    } else {
      DecimalValue(n / 10);
      assert Decimal(n)[..|Decimal(n)| - 1] == Decimal(n / 10);
    }
  }

  function Pow10(k: nat): nat {
    if k == 0 then 1 else 10 * Pow10(k - 1)
  }

  lemma {:induction false} DecimalLength(n: nat, k: nat)
    requires k >= 1 && n < Pow10(k)
    ensures |Decimal(n)| <= k
  {
    if n >= 10 {
      assert Pow10(1) == 10 * Pow10(0);
      DecimalLength(n / 10, k - 1);
    }
  }

  function Candidate(base: string, index: nat): string {
    Slice(base, STEM) + "_" + Decimal(index)
  }

  lemma CandidatesDiffer(base: string, i: nat, j: nat)
    requires Candidate(base, i) == Candidate(base, j)
    ensures i == j
  {
    hide Decimal;
    var stem := Slice(base, STEM) + "_";
    assert Candidate(base, i)[|stem|..] == Decimal(i) && Candidate(base, j)[|stem|..] == Decimal(j);
    DecimalInjective(i, j);
  }

  /** All candidates from index 2 up to but not including n. */
  ghost function Tried(base: string, n: nat): (r: set<string>)
  {
    if n <= 2 then {} else Tried(base, n - 1) + {Candidate(base, n - 1)}
  }

  /** Pigeonhole: the candidates tried are pairwise distinct, so they outnumber the names bound in the end. */
  lemma {:induction false} TriedCount(base: string, n: nat)
    requires n >= 2
    ensures |Tried(base, n)| == n - 2
    ensures forall c :: c in Tried(base, n) ==> exists k :: 2 <= k < n && c == Candidate(base, k)
  {
    hide Candidate;
    if n > 2 {
      TriedCount(base, n - 1);
      var c := Candidate(base, n - 1);
      if c in Tried(base, n - 1) {
        var k :| 2 <= k < n - 1 && c == Candidate(base, k);
        CandidatesDiffer(base, k, n - 1);
      }
    }
  }

  lemma FewTried(base: string, n: nat, names: set<string>)
    requires n >= 2 && Tried(base, n) <= names
    ensures n - 2 <= |names|
  {
    TriedCount(base, n);
    Fewer(Tried(base, n), names);
  }

  /** The first candidate from index on that is not taken. */
  ghost function FirstFree(names: set<string>, base: string, index: nat): (r: string)
    requires index >= 2 && Tried(base, index) <= names
    decreases |names| + 2 - index
  {
    if Candidate(base, index) in names then
      FewTried(base, index + 1, names);
      FirstFree(names, base, index + 1)
    else Candidate(base, index)
  }

  ghost function UniqueName(names: set<string>, base: string): string {
    if base in names then FirstFree(names, base, 2) else base
  }

  datatype Binding = Binding(serverName: string, toolName: string, openAiName: string)

  /** The probe loop; it ends after at most |bindings| + 2 probes. */
  method UniqueToolName(
    bindings: map<string, Binding>, serverName: string, toolName: string) returns (candidate: string)
    ensures candidate == UniqueName(bindings.Keys, SanitizeToolName(serverName + "__" + toolName))
  {
    hide SanitizeToolName, Candidate;
    var base := SanitizeToolName(serverName + "__" + toolName);
    candidate := base;
    var index := 2;
    while candidate in bindings
      invariant index >= 2 && Tried(base, index - 1) <= bindings.Keys
      invariant candidate == if index == 2 then base else Candidate(base, index - 1)
      invariant index == 2 || (base in bindings
          && FirstFree(bindings.Keys, base, index - 1) == FirstFree(bindings.Keys, base, 2))
      invariant index - 3 <= |bindings.Keys|
      decreases |bindings.Keys| + 3 - index
    {
      FewTried(base, index, bindings.Keys);
      candidate := Candidate(base, index);
      index := index + 1;
    }
  }

  lemma {:induction false} FirstFreeIsFree(names: set<string>, base: string, index: nat) returns (k: nat)
    requires index >= 2 && Tried(base, index) <= names
    ensures index <= k <= |names| + 2
    ensures FirstFree(names, base, index) == Candidate(base, k) && Candidate(base, k) !in names
    ensures forall j :: index <= j < k ==> Candidate(base, j) in names
    decreases |names| + 2 - index
  {
    hide Candidate;
    FewTried(base, index, names);
    if Candidate(base, index) in names {
      FewTried(base, index + 1, names);
      k := FirstFreeIsFree(names, base, index + 1);
    } else {
      k := index;
    }
  }

  /** A new name is free, and it is the base or the first free numbered candidate within |names| + 2; it has at
      most 64 characters while the number has at most seven digits. */
  lemma UniqueNameIsFree(names: set<string>, base: string)
    requires 1 <= |base| <= MAX_NAME
    ensures var r := UniqueName(names, base);
            && r !in names
            && (base !in names ==> r == base)
            && (base in names ==> exists k :: 2 <= k <= |names| + 2 && r == Candidate(base, k)
                                    && forall j :: 2 <= j < k ==> Candidate(base, j) in names)
            && (|names| + 2 < Pow10(7) ==> 1 <= |r| <= MAX_NAME)
  {
    if base in names {
      var k := FirstFreeIsFree(names, base, 2);
      if |names| + 2 < Pow10(7) {
        DecimalLength(k, 7);
      }
    }
  }

  // ---------------------------------------------------------------- registration

  function SetOf(names: seq<string>): set<string> {
    set n | n in names
  }

  /** The names that a server's tools get, in order. */
  ghost function Names(taken: set<string>, serverName: string, tools: seq<string>): (r: seq<string>)
    ensures |r| == |tools|
    decreases |tools|
  {
    if tools == [] then []
    else
      var names := Names(taken, serverName, tools[..|tools| - 1]);
      names + [UniqueName(taken + SetOf(names), SanitizeToolName(serverName + "__" + tools[|tools| - 1]))]
  }

  /** What registering adds: every name bound to its tool. */
  ghost function Bound(serverName: string, tools: seq<string>, names: seq<string>): map<string, Binding>
    requires |names| == |tools|
    decreases |tools|
  {
    if tools == [] then map[]
    else
      var n := |tools| - 1;
      Bound(serverName, tools[..n], names[..n])[names[n] := Binding(serverName, tools[n], names[n])]
  }

  lemma NamesPush(taken: set<string>, serverName: string, init: seq<string>, tool: string)
    ensures Names(taken, serverName, init + [tool])
         == Names(taken, serverName, init)
          + [UniqueName(taken + SetOf(Names(taken, serverName, init)), SanitizeToolName(serverName + "__" + tool))]
  {
    hide SanitizeToolName, UniqueName, SetOf;
    assert (init + [tool])[..|init|] == init;
  }

  lemma BoundPush(serverName: string, init: seq<string>, tool: string, names: seq<string>, name: string)
    requires |names| == |init|
    ensures Bound(serverName, init + [tool], names + [name])
         == Bound(serverName, init, names)[name := Binding(serverName, tool, name)]
  {
    assert (init + [tool])[..|init|] == init && (names + [name])[..|init|] == names;
  }

  lemma SetOfPush(names: seq<string>, name: string)
    requires Distinct(names) && name !in names
    ensures SetOf(names + [name]) == SetOf(names) + {name}
    ensures Distinct(names + [name])
  {}

  lemma DistinctInit(names: seq<string>, name: string)
    requires Distinct(names + [name])
    ensures Distinct(names) && name !in names
  {
    var all := names + [name];
    forall j, k | 0 <= j < k < |names| ensures names[j] != names[k] { assert all[j] != all[k]; }
    forall j | 0 <= j < |names| ensures names[j] != name { assert all[j] != all[|names|]; }
  }

  /** All names are new and pairwise distinct. */
  lemma {:induction false} NamesAreNew(taken: set<string>, serverName: string, tools: seq<string>)
    ensures SetOf(Names(taken, serverName, tools)) !! taken && Distinct(Names(taken, serverName, tools))
    decreases |tools|
  {
    if tools != [] {
      hide SanitizeToolName, UniqueName, Names, Distinct;
      var init, tool := tools[..|tools| - 1], tools[|tools| - 1];
      var names, base := Names(taken, serverName, init), SanitizeToolName(serverName + "__" + tool);
      assert tools == init + [tool];
      NamesPush(taken, serverName, init, tool);
      NamesAreNew(taken, serverName, init);
      SanitizedShape(serverName + "__" + tool);
      UniqueNameIsFree(taken + SetOf(names), base);
      SetOfPush(names, UniqueName(taken + SetOf(names), base));
    }
  }

  lemma {:induction false} BoundSize(serverName: string, tools: seq<string>, names: seq<string>)
    requires |names| == |tools| && Distinct(names)
    ensures Bound(serverName, tools, names).Keys == SetOf(names)
    ensures |Bound(serverName, tools, names)| == |tools|
    decreases |tools|
  {
    if tools != [] {
      hide Bound, Distinct, SetOf;
      var n := |tools| - 1;
      var initTools, initNames := tools[..n], names[..n];
      assert names == initNames + [names[n]] && tools == initTools + [tools[n]];
      DistinctInit(initNames, names[n]);
      BoundSize(serverName, initTools, initNames);
      BoundPush(serverName, initTools, tools[n], initNames, names[n]);
      SetOfPush(initNames, names[n]);
      SetOfMember(initNames, names[n]);
    }
  }

  lemma SetOfMember(names: seq<string>, name: string)
    ensures name in SetOf(names) <==> name in names
  {}

  lemma {:induction false} BoundAt(serverName: string, tools: seq<string>, names: seq<string>, k: nat)
    requires |names| == |tools| && Distinct(names) && k < |tools|
    ensures names[k] in Bound(serverName, tools, names)
    ensures Bound(serverName, tools, names)[names[k]] == Binding(serverName, tools[k], names[k])
    decreases |tools|
  {
    var n := |tools| - 1;
    if k < n {
      BoundAt(serverName, tools[..n], names[..n], k);
    }
  }

  /** The table after a server's tools were registered. */
  ghost function Registered(
    bindings: map<string, Binding>, serverName: string, tools: seq<string>): map<string, Binding> {
    bindings + Bound(serverName, tools, Names(bindings.Keys, serverName, tools))
  }

  /** Registering tools never overwrites: every earlier binding stays, and every tool of the list, repeated
      names included, gets a binding of its own. */
  lemma RegisteringKeepsAll(bindings: map<string, Binding>, serverName: string, tools: seq<string>)
    ensures var names, after := Names(bindings.Keys, serverName, tools), Registered(bindings, serverName, tools);
            && (forall n :: n in bindings ==> n in after && after[n] == bindings[n])
            && Distinct(names)
            && (forall k :: 0 <= k < |tools| ==>
                 names[k] in after && after[names[k]] == Binding(serverName, tools[k], names[k]))
            && |after| == |bindings| + |tools|
  {
    hide Names, Bound;
    var names := Names(bindings.Keys, serverName, tools);
    NamesAreNew(bindings.Keys, serverName, tools);
    BoundSize(serverName, tools, names);
    var after := Registered(bindings, serverName, tools);
    assert after.Keys == bindings.Keys + SetOf(names);
    forall k | 0 <= k < |tools|
      ensures names[k] in after && after[names[k]] == Binding(serverName, tools[k], names[k])
    {
      BoundAt(serverName, tools, names, k);
    }
  }

  lemma RegisterOne(bindings: map<string, Binding>, serverName: string, tools: seq<string>, k: nat)
    requires k < |tools|
    ensures var so := Registered(bindings, serverName, tools[..k]);
            var name := UniqueName(so.Keys, SanitizeToolName(serverName + "__" + tools[k]));
            Registered(bindings, serverName, tools[..k + 1]) == so[name := Binding(serverName, tools[k], name)]
  {
    hide SanitizeToolName, UniqueName, Names, Bound, Distinct, SetOf;
    var init, tool := tools[..k], tools[k];
    var names := Names(bindings.Keys, serverName, init);
    NamesAreNew(bindings.Keys, serverName, init);
    BoundSize(serverName, init, names);
    var keys := bindings.Keys + SetOf(names);
    var name := UniqueName(keys, SanitizeToolName(serverName + "__" + tool));
    assert Registered(bindings, serverName, init).Keys == keys;
    assert tools[..k + 1] == init + [tool];
    NamesPush(bindings.Keys, serverName, init, tool);
    BoundPush(serverName, init, tool, names, name);
    MapPush(bindings, Bound(serverName, init, names), name, Binding(serverName, tool, name));
  }

  lemma MapPush(a: map<string, Binding>, b: map<string, Binding>, name: string, x: Binding)
    ensures a + b[name := x] == (a + b)[name := x]
  {}

  class McpHub {
    var bindings: map<string, Binding>

    /** The tool loop of `initialize` for one connected server. */
    method RegisterTools(serverName: string, tools: seq<string>)
      modifies this
      ensures bindings == Registered(old(bindings), serverName, tools)
      ensures forall n :: n in old(bindings) ==> n in bindings && bindings[n] == old(bindings)[n]
      ensures |bindings| == |old(bindings)| + |tools|
    {
      hide SanitizeToolName, UniqueName, Registered;
      RegisterNone(bindings, serverName);
      assert tools[..0] == [];
      for k := 0 to |tools|
        invariant bindings == Registered(old(bindings), serverName, tools[..k])
      {
        var openAiName := UniqueToolName(bindings, serverName, tools[k]);
        RegisterOne(old(bindings), serverName, tools, k);
        bindings := bindings[openAiName := Binding(serverName, tools[k], openAiName)];
      }
      assert tools[..|tools|] == tools;
      RegisteringKeepsAll(old(bindings), serverName, tools);
    }
  }

  lemma RegisterNone(bindings: map<string, Binding>, serverName: string)
    ensures Registered(bindings, serverName, []) == bindings
  {}
}
