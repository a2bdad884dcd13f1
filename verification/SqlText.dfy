/** Separating the lines of a migration that must run outside a transaction. Strings are sequences of
    characters; upper-casing is that of ASCII letters, the only ones that can turn into a letter of
    the keyword looked for. */
module SqlText {

  predicate IsSpace(c: char) {
    || '\t' <= c <= '\r' || c == ' ' || c == '\U{85}' || c == '\U{A0}' || c == '\U{1680}'
    || '\U{2000}' <= c <= '\U{200A}' || c == '\U{2028}' || c == '\U{2029}' || c == '\U{202F}'
    || c == '\U{205F}' || c == '\U{3000}'
  }

  function TrimLeft(s: string): string {
    if s != "" && IsSpace(s[0]) then TrimLeft(s[1..]) else s
  }

  function TrimRight(s: string): string {
    if s != "" && IsSpace(s[|s| - 1]) then TrimRight(s[..|s| - 1]) else s
  }

  function TrimSpace(s: string): string {
    TrimRight(TrimLeft(s))
  }

  function UpperChar(c: char): char {
    if 'a' <= c <= 'z' then c - 'a' + 'A' else c
  }

  function ToUpper(s: string): (r: string)
    ensures |r| == |s|
  {
    seq(|s|, i requires 0 <= i < |s| => UpperChar(s[i]))
  }

  function Split(s: string): (lines: seq<string>)
    ensures |lines| >= 1
  {
    if s == "" then [""]
    else
      var rest := Split(s[1..]);
      if s[0] == '\n' then [""] + rest else [[s[0]] + rest[0]] + rest[1..]
  }

  function Join(lines: seq<string>): string {
    if lines == [] then ""
    else if |lines| == 1 then lines[0]
    else lines[0] + "\n" + Join(lines[1..])
  }

  predicate IsVacuum(line: string) {
    var upper := ToUpper(TrimSpace(line));
    "VACUUM " <= upper || upper == "VACUUM;"
  }

  function Kept(lines: seq<string>): seq<string> {
    if lines == [] then []
    else Kept(lines[..|lines| - 1]) + if IsVacuum(lines[|lines| - 1]) then [] else [lines[|lines| - 1]]
  }

  function Extracted(lines: seq<string>): seq<string> {
    if lines == [] then []
    else Extracted(lines[..|lines| - 1]) + if IsVacuum(lines[|lines| - 1]) then [lines[|lines| - 1]] else []
  }

  function Trimmed(lines: seq<string>): seq<string> {
    seq(|lines|, i requires 0 <= i < |lines| => TrimSpace(lines[i]))
  }

  datatype Prepared = Prepared(sql: string, maintenance: seq<string>)

  function Prepare(sql: string): Prepared {
    Prepared(TrimSpace(Join(Kept(Split(sql)))), Trimmed(Extracted(Split(sql))))
  }

  lemma OneMoreLine(lines: seq<string>, n: nat)
    requires n < |lines|
    ensures Kept(lines[..n + 1]) == Kept(lines[..n]) + if IsVacuum(lines[n]) then [] else [lines[n]]
    ensures Trimmed(Extracted(lines[..n + 1]))
            == Trimmed(Extracted(lines[..n])) + if IsVacuum(lines[n]) then [TrimSpace(lines[n])] else []
  {
    assert lines[..n + 1][..n] == lines[..n];
  }

  method PreprocessMigrationSQL(sql: string) returns (prepared: Prepared)
    ensures prepared == Prepare(sql)
  {
    var lines := Split(sql);
    var kept, maintenance: seq<string> := [], [];
    for n := 0 to |lines|
      invariant kept == Kept(lines[..n]) && maintenance == Trimmed(Extracted(lines[..n]))
    {
      OneMoreLine(lines, n);
      var trimmed := TrimSpace(lines[n]);
      var upper := ToUpper(trimmed);
      if "VACUUM " <= upper || upper == "VACUUM;" {
        maintenance := maintenance + [trimmed];
        continue;
      }
      kept := kept + [lines[n]];
    }
    assert lines[..|lines|] == lines;
    prepared := Prepared(TrimSpace(Join(kept)), maintenance);
  }

  // ---------- Splitting and joining ----------

  predicate OneLine(s: string) {
    '\n' !in s
  }

  lemma {:induction false} SplitGivesLines(s: string)
    ensures forall n :: 0 <= n < |Split(s)| ==> OneLine(Split(s)[n])
  {
    if s != "" {
      SplitGivesLines(s[1..]);
    }
  }

  lemma {:induction false} JoinOfSplit(s: string)
    ensures Join(Split(s)) == s
  {
    if s != "" {
      var rest := Split(s[1..]);
      JoinOfSplit(s[1..]);
      if s[0] == '\n' {
        assert ([""] + rest)[1..] == rest;
      } else {
        var lines := [[s[0]] + rest[0]] + rest[1..];
        assert lines[1..] == rest[1..];
        assert Join(lines) == [s[0]] + Join(rest);
      }
    }
  }

  lemma {:induction false} SplitOfLine(line: string, rest: string)
    requires OneLine(line)
    ensures Split(line + "\n" + rest) == [line] + Split(rest)
    ensures Split(line) == [line]
  {
    var s := line + "\n" + rest;
    if line == "" {
      assert s == "\n" + rest && s[1..] == rest;
    } else {
      SplitOfLine(line[1..], rest);
      assert s[1..] == line[1..] + "\n" + rest;
      assert [line[0]] + line[1..] == line;
      assert OneLine(line[1..]);
    }
  }

  lemma {:induction false} SplitOfJoin(lines: seq<string>)
    requires lines != [] && forall n :: 0 <= n < |lines| ==> OneLine(lines[n])
    ensures Split(Join(lines)) == lines
  {
    if |lines| == 1 {
      SplitOfLine(lines[0], "");
    } else {
      SplitOfJoin(lines[1..]);
      SplitOfLine(lines[0], Join(lines[1..]));
    }
  }

  /** Adds a character at the end of the last line, or starts a new one. */
  function LinesSnoc(lines: seq<string>, c: char): seq<string>
    requires lines != []
  {
    if c == '\n' then lines + [""] else lines[..|lines| - 1] + [lines[|lines| - 1] + [c]]
  }

  /** Adds a character at the start of the first line, or starts a new one. */
  function LinesCons(c: char, lines: seq<string>): seq<string>
    requires lines != []
  {
    if c == '\n' then [""] + lines else [[c] + lines[0]] + lines[1..]
  }

  lemma ConsThenSnoc(c: char, lines: seq<string>, d: char)
    requires lines != []
    ensures LinesSnoc(LinesCons(c, lines), d) == LinesCons(c, LinesSnoc(lines, d))
  {
    if c != '\n' && d != '\n' && |lines| == 1 {
      assert ([c] + lines[0]) + [d] == [c] + (lines[0] + [d]);
    }
  }

  lemma {:induction false} SplitSnoc(s: string, c: char)
    ensures Split(s + [c]) == LinesSnoc(Split(s), c)
  {
    if s == "" {
      assert s + [c] == [c] && [c][1..] == "" && Split("") == [""];
      assert [c] + "" == "" + [c];
    } else {
      SplitSnoc(s[1..], c);
      assert (s + [c])[1..] == s[1..] + [c];
      ConsThenSnoc(s[0], Split(s[1..]), c);
    }
  }

  // ---------- Trimming ----------

  lemma {:induction false} TrimLeftSnoc(s: string, c: char)
    requires IsSpace(c)
    ensures TrimLeft(s + [c]) == if TrimLeft(s) == "" then "" else TrimLeft(s) + [c]
  {
    if s == "" {
      assert ([c])[1..] == "";
      assert s + [c] == [c];
    } else if IsSpace(s[0]) {
      TrimLeftSnoc(s[1..], c);
      assert (s + [c])[1..] == s[1..] + [c];
    }
  }

  /** White space around a text is invisible to trimming. */
  lemma TrimIgnoresEnds(s: string, c: char)
    requires IsSpace(c)
    ensures TrimSpace([c] + s) == TrimSpace(s) == TrimSpace(s + [c])
  {
    assert ([c] + s)[1..] == s;
    TrimLeftSnoc(s, c);
    if TrimLeft(s) != "" {
      assert (TrimLeft(s) + [c])[..|TrimLeft(s)|] == TrimLeft(s);
    }
  }

  lemma {:induction false} TrimRightKeepsFront(s: string)
    ensures TrimRight(s) <= s
    ensures TrimRight(s) == "" || !IsSpace(TrimRight(s)[|TrimRight(s)| - 1])
  {
    if s != "" && IsSpace(s[|s| - 1]) {
      TrimRightKeepsFront(s[..|s| - 1]);
    }
  }

  lemma {:induction false} TrimLeftStart(s: string)
    ensures TrimLeft(s) == "" || !IsSpace(TrimLeft(s)[0])
  {
    if s != "" && IsSpace(s[0]) {
      TrimLeftStart(s[1..]);
    }
  }

  lemma TrimTwice(s: string)
    ensures TrimSpace(TrimSpace(s)) == TrimSpace(s)
  {
    TrimLeftStart(s);
    TrimRightKeepsFront(TrimLeft(s));
  }

  ghost predicate AllSpace(s: string) {
    forall i :: 0 <= i < |s| ==> IsSpace(s[i])
  }

  lemma {:induction false} TrimLeftDrops(s: string) returns (left: string)
    ensures s == left + TrimLeft(s) && AllSpace(left)
  {
    left := "";
    if s != "" && IsSpace(s[0]) {
      var rest := TrimLeftDrops(s[1..]);
      left := [s[0]] + rest;
      assert s == [s[0]] + s[1..];
    }
  }

  lemma {:induction false} TrimRightDrops(s: string) returns (right: string)
    ensures s == TrimRight(s) + right && AllSpace(right)
  {
    right := "";
    if s != "" && IsSpace(s[|s| - 1]) {
      var rest := TrimRightDrops(s[..|s| - 1]);
      right := rest + [s[|s| - 1]];
      assert s == s[..|s| - 1] + [s[|s| - 1]];
    }
  }

  /** Trimming removes white space, and all of it, at both ends. */
  lemma TrimmingDrops(s: string) returns (left: string, right: string)
    ensures s == left + TrimSpace(s) + right && AllSpace(left) && AllSpace(right)
    ensures var t := TrimSpace(s); t != "" ==> !IsSpace(t[0]) && !IsSpace(t[|t| - 1])
  {
    left := TrimLeftDrops(s);
    right := TrimRightDrops(TrimLeft(s));
    TrimLeftStart(s);
    TrimRightKeepsFront(TrimLeft(s));
  }

  lemma NothingLeft(s: string)
    ensures TrimSpace(s) == "" <==> AllSpace(s)
  {
    var left, right := TrimmingDrops(s);
    var t := TrimSpace(s);
    if t != "" {
      assert s[|left|] == t[0];
    }
  }

  // ---------- Which lines are extracted ----------

  /** The letter, in either case. */
  predicate IsLetter(c: char, upper: char, lower: char) {
    c == upper || c == lower
  }

  /** The six letters in any case, and then a blank or a closing semicolon. */
  predicate SpellsVacuum(t: string) {
    && |t| >= 7
    && IsLetter(t[0], 'V', 'v') && IsLetter(t[1], 'A', 'a') && IsLetter(t[2], 'C', 'c')
    && IsLetter(t[3], 'U', 'u') && IsLetter(t[4], 'U', 'u') && IsLetter(t[5], 'M', 'm')
    && (t[6] == ' ' || (t[6] == ';' && |t| == 7))
  }

  lemma StartsWith(s: string, head: string)
    ensures head <= s <==> |head| <= |s| && forall i :: 0 <= i < |head| ==> s[i] == head[i]
  {
    if |head| <= |s| && forall i :: 0 <= i < |head| ==> s[i] == head[i] {
      assert s[..|head|] == head;
    }
  }

  /** A VACUUM line is one that, white space at its ends apart, begins with the word and a blank, or is the
      word and a semicolon; the case of its letters does not matter. */
  lemma VacuumLinesSpellIt(line: string)
    ensures IsVacuum(line) <==> SpellsVacuum(TrimSpace(line))
  {
    var t := TrimSpace(line);
    var upper := ToUpper(t);
    StartsWith(upper, "VACUUM ");
    StartsWith(upper, "VACUUM;");
    assert upper == "VACUUM;" <==> "VACUUM;" <= upper && |upper| == 7;
    forall c: char
      ensures UpperChar(c) == 'V' <==> IsLetter(c, 'V', 'v')
      ensures UpperChar(c) == 'A' <==> IsLetter(c, 'A', 'a')
      ensures UpperChar(c) == 'C' <==> IsLetter(c, 'C', 'c')
      ensures UpperChar(c) == 'U' <==> IsLetter(c, 'U', 'u')
      ensures UpperChar(c) == 'M' <==> IsLetter(c, 'M', 'm')
      ensures UpperChar(c) == ' ' <==> c == ' '
      ensures UpperChar(c) == ';' <==> c == ';'
    {
    }
    if |t| >= 7 {
      assert forall i :: 0 <= i < |t| ==> upper[i] == UpperChar(t[i]);
    }
  }

  // ---------- What the separation guarantees ----------

  ghost predicate NoVacuum(s: string) {
    forall n :: 0 <= n < |Split(s)| ==> !IsVacuum(Split(s)[n])
  }

  lemma {:induction false} TrimLeftKeepsNoVacuum(s: string)
    requires NoVacuum(s)
    ensures NoVacuum(TrimLeft(s))
  {
    if s != "" && IsSpace(s[0]) {
      var rest := Split(s[1..]);
      forall n | 0 <= n < |rest| ensures !IsVacuum(rest[n]) {
        if s[0] == '\n' {
          assert rest[n] == Split(s)[n + 1];
        } else if n == 0 {
          assert Split(s)[0] == [s[0]] + rest[0];
          TrimIgnoresEnds(rest[0], s[0]);
        } else {
          assert rest[n] == Split(s)[n];
        }
      }
      TrimLeftKeepsNoVacuum(s[1..]);
    }
  }

  lemma {:induction false} TrimRightKeepsNoVacuum(s: string)
    requires NoVacuum(s)
    ensures NoVacuum(TrimRight(s))
  {
    if s != "" && IsSpace(s[|s| - 1]) {
      var front, c := s[..|s| - 1], s[|s| - 1];
      var lines := Split(front);
      assert s == front + [c];
      SplitSnoc(front, c);
      forall n | 0 <= n < |lines| ensures !IsVacuum(lines[n]) {
        if c == '\n' || n < |lines| - 1 {
          assert lines[n] == Split(s)[n];
        } else {
          assert Split(s)[n] == lines[n] + [c];
          TrimIgnoresEnds(lines[n], c);
        }
      }
      TrimRightKeepsNoVacuum(front);
    }
  }

  lemma {:induction false} KeptLines(lines: seq<string>, line: string)
    ensures line in Kept(lines) <==> line in lines && !IsVacuum(line)
    ensures line in Extracted(lines) <==> line in lines && IsVacuum(line)
  {
    if lines != [] {
      var n := |lines| - 1;
      KeptLines(lines[..n], line);
      assert lines == lines[..n] + [lines[n]];
    }
  }

  lemma AddOne(kept: seq<string>, extracted: seq<string>, lines: seq<string>, line: string)
    requires multiset(kept) + multiset(extracted) == multiset(lines)
    ensures multiset(kept + [line]) + multiset(extracted) == multiset(lines + [line])
    ensures multiset(kept) + multiset(extracted + [line]) == multiset(lines + [line])
  {
  }

  lemma {:induction false} NothingIsLost(lines: seq<string>)
    ensures multiset(Kept(lines)) + multiset(Extracted(lines)) == multiset(lines)
  {
    if lines != [] {
      var front, last := lines[..|lines| - 1], lines[|lines| - 1];
      NothingIsLost(front);
      AddOne(Kept(front), Extracted(front), front, last);
      assert lines == front + [last];
      assert Kept(front) + [] == Kept(front) && Extracted(front) + [] == Extracted(front);
    }
  }

  lemma {:induction false} NothingToExtract(lines: seq<string>)
    requires forall n :: 0 <= n < |lines| ==> !IsVacuum(lines[n])
    ensures Kept(lines) == lines && Extracted(lines) == []
  {
    if lines != [] {
      NothingToExtract(lines[..|lines| - 1]);
    }
  }

  /** The lines are divided between the two results: a line is extracted exactly when it is a VACUUM
      line, and no line is lost or doubled. */
  lemma {:induction false} EveryLineGoesSomewhere(sql: string)
    ensures multiset(Kept(Split(sql))) + multiset(Extracted(Split(sql))) == multiset(Split(sql))
    ensures forall line :: line in Extracted(Split(sql)) <==> line in Split(sql) && IsVacuum(line)
    ensures forall line :: line in Kept(Split(sql)) <==> line in Split(sql) && !IsVacuum(line)
  {
    NothingIsLost(Split(sql));
    forall line
      ensures line in Extracted(Split(sql)) <==> line in Split(sql) && IsVacuum(line)
      ensures line in Kept(Split(sql)) <==> line in Split(sql) && !IsVacuum(line)
    {
      KeptLines(Split(sql), line);
    }
  }

  lemma DivisionSnoc(lines: seq<string>, line: string)
    ensures Kept(lines + [line]) == Kept(lines) + Kept([line])
    ensures Extracted(lines + [line]) == Extracted(lines) + Extracted([line])
  {
    var longer := lines + [line];
    assert longer[..|longer| - 1] == lines && longer[|longer| - 1] == line;
    assert [line][..0] == [];
  }

  /** Dividing consecutive parts divides the whole, so both results keep the order of the lines. */
  lemma {:induction false} DivisionIsStable(front: seq<string>, back: seq<string>)
    ensures Kept(front + back) == Kept(front) + Kept(back)
    ensures Extracted(front + back) == Extracted(front) + Extracted(back)
  {
    if back == [] {
      assert front + back == front;
    } else {
      var most, last := back[..|back| - 1], back[|back| - 1];
      assert back == most + [last];
      assert front + back == (front + most) + [last];
      DivisionIsStable(front, most);
      DivisionSnoc(front + most, last);
      DivisionSnoc(most, last);
      Regroup(Kept(front), Kept(most), Kept([last]));
      Regroup(Extracted(front), Extracted(most), Extracted([last]));
    }
  }

  lemma Regroup(a: seq<string>, b: seq<string>, c: seq<string>)
    ensures (a + b) + c == a + (b + c)
  {
  }

  /** No line of the returned SQL is a VACUUM line. */
  lemma {:induction false} PreparedHasNoVacuum(sql: string)
    ensures NoVacuum(Prepare(sql).sql)
  {
    var kept := Kept(Split(sql));
    SplitGivesLines(sql);
    forall n | 0 <= n < |kept| ensures !IsVacuum(kept[n]) && kept[n] in Split(sql) {
      KeptLines(Split(sql), kept[n]);
    }
    if kept == [] {
      assert Split("") == [""];
      assert TrimSpace("") == "" && ToUpper("") == "";
      assert !IsVacuum("");
    } else {
      forall n | 0 <= n < |kept| ensures OneLine(kept[n]) {
        assert kept[n] in Split(sql);
      }
      SplitOfJoin(kept);
      assert NoVacuum(Join(kept));
      TrimLeftKeepsNoVacuum(Join(kept));
      TrimRightKeepsNoVacuum(TrimLeft(Join(kept)));
    }
  }

  /** Preparing prepared SQL changes nothing and extracts nothing. */
  lemma {:induction false} PreparingTwice(sql: string)
    ensures Prepare(Prepare(sql).sql) == Prepared(Prepare(sql).sql, [])
  {
    var out := Prepare(sql).sql;
    PreparedHasNoVacuum(sql);
    NothingToExtract(Split(out));
    JoinOfSplit(out);
    TrimTwice(Join(Kept(Split(sql))));
    assert Trimmed([]) == [];
  }

  /** The maintenance statements are the extracted lines, in order and trimmed. */
  lemma MaintenanceIsTrimmed(sql: string, i: nat) returns (left: string, right: string)
    requires i < |Extracted(Split(sql))|
    ensures |Prepare(sql).maintenance| == |Extracted(Split(sql))|
    ensures var stmt := Prepare(sql).maintenance[i];
      && Extracted(Split(sql))[i] == left + stmt + right && AllSpace(left) && AllSpace(right)
      && SpellsVacuum(stmt)
  {
    var line := Extracted(Split(sql))[i];
    left, right := TrimmingDrops(line);
    KeptLines(Split(sql), line);
    VacuumLinesSpellIt(line);
  }

  lemma {:induction false} JoinIsBlank(lines: seq<string>)
    ensures AllSpace(Join(lines)) <==> forall n :: 0 <= n < |lines| ==> AllSpace(lines[n])
  {
    if |lines| == 1 {
    } else if lines != [] {
      var rest := Join(lines[1..]);
      JoinIsBlank(lines[1..]);
      var s := Join(lines);
      assert s == lines[0] + "\n" + rest;
      assert forall i :: 0 <= i < |lines[0]| ==> s[i] == lines[0][i];
      assert forall i :: 0 <= i < |rest| ==> s[|lines[0]| + 1 + i] == rest[i];
      assert forall n :: 1 <= n < |lines| ==> lines[n] == lines[1..][n - 1];
    }
  }

  /** Something is left to execute exactly when a line that is not a VACUUM line is not blank. */
  lemma SomethingToExecute(sql: string)
    ensures Prepare(sql).sql != "" <==> exists line :: line in Split(sql) && !IsVacuum(line) && !AllSpace(line)
  {
    var kept := Kept(Split(sql));
    NothingLeft(Join(kept));
    JoinIsBlank(kept);
    forall line ensures line in kept <==> line in Split(sql) && !IsVacuum(line) {
      KeptLines(Split(sql), line);
    }
    if n :| 0 <= n < |kept| && !AllSpace(kept[n]) {
      assert kept[n] in kept;
    }
  }
}
