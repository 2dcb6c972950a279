/** The simulator's inputs built per sweep leaf: the override configuration
    file (`populate_extra_ini`, whose text is modelled and whose file write is
    not) and the simulator command line (`get_etiss_cmd`). A small reader of
    the generated file states what the simulator gets out of it. */
module EtissConfig {
  import opened Results
  import opened Text

  /** Python truthiness of the optional fast-JIT name: `None` and the empty
      string are false. */
  predicate FastJitEnabled(fastJit: Option<string>)
  {
    fastJit.Some? && fastJit.value != ""
  }

  /** f-string formatting of an `Optional[int]`. */
  function FormatOptionalInt(v: Option<int>): string
  {
    match v
    case None => "None"
    case Some(n) => IntToDecimal(n)
  }

  const StringSection := "[StringConfigurations]"
  const IntSection := "[IntConfigurations]"

  function JitTypeLine(jit: string): string
  {
    "jit.type=" + jit + "JIT"
  }

  function FastJitTypeLine(fastJit: string): string
  {
    "jit.fast_type=" + fastJit + "JIT"
  }

  function BlockSizeLine(blockSize: Option<int>): string
  {
    "etiss.max_block_size=" + FormatOptionalInt(blockSize)
  }

  /** The text `populate_extra_ini` writes to the override file. */
  function ExtraIni(jit: string, fastJit: Option<string>, blockSize: Option<int>): string
  {
    var content := "\n" + StringSection + "\n" + JitTypeLine(jit) + "\n";
    var content := if FastJitEnabled(fastJit) then content + FastJitTypeLine(fastJit.value) + "\n" else content;
    content + "\n" + IntSection + "\n" + BlockSizeLine(blockSize) + "\n"
  }

  /** The settings of the string section: the JIT, and the fast JIT exactly
      when one is given. */
  function StringSettings(jit: string, fastJit: Option<string>): (r: seq<string>)
    ensures |r| == if FastJitEnabled(fastJit) then 2 else 1
    ensures forall i | 0 <= i < |r| :: |r[i]| > 0 && r[i][0] == 'j' && r[i][|r[i]| - 1] == 'T'
  {
    [JitTypeLine(jit)] + (if FastJitEnabled(fastJit) then [FastJitTypeLine(fastJit.value)] else [])
  }

  /** The lines of the override file: a string section selecting the JIT
      (and the fast JIT exactly when one is given), then an integer section
      with the block size. */
  function ExtraIniLines(jit: string, fastJit: Option<string>, blockSize: Option<int>): seq<string>
  {
    ["", StringSection] + StringSettings(jit, fastJit) + ["", IntSection, BlockSizeLine(blockSize), ""]
  }

  /** Splitting a first line off. */
  lemma SplitCons(a: string, t: string, sep: char)
    requires sep !in a
    ensures Split(a + [sep] + t, sep) == [a] + Split(t, sep)
  {
    SplitOfAppend(a, [sep] + t, sep);
    assert a + [sep] + t == a + ([sep] + t);
    assert ([sep] + t)[1..] == t;
    assert a + [] == a;
  }

  /** A blank line, a section header and one setting. */
  lemma SectionLines(header: string, line: string, rest: string)
    requires '\n' !in header && '\n' !in line
    ensures Split("\n" + header + "\n" + line + "\n" + rest, '\n') == ["", header, line] + Split(rest, '\n')
  {
    var t0 := line + "\n" + rest;
    var t1 := header + "\n" + t0;
    assert "\n" + header + "\n" + line + "\n" + rest == "" + "\n" + t1;
    SplitCons("", t1, '\n');
    SplitCons(header, t0, '\n');
    SplitCons(line, rest, '\n');
  }

  /** The last section, which ends the file. */
  lemma LastSectionLines(header: string, line: string)
    requires '\n' !in header && '\n' !in line
    ensures Split("\n" + header + "\n" + line + "\n", '\n') == ["", header, line, ""]
  {
    SectionLines(header, line, []);
    assert "\n" + header + "\n" + line + "\n" + [] == "\n" + header + "\n" + line + "\n";
  }

  lemma FormattedIntIsOneLine(v: Option<int>)
    ensures '\n' !in FormatOptionalInt(v)
  {
    if v.Some? {
      if v.value < 0 {
        assert FormatOptionalInt(v) == "-" + NatToDecimal(-v.value);
      }
    }
  }

  lemma WithFastJitLines(h1: string, typeLine: string, fastLine: string, h2: string, sizeLine: string)
    requires '\n' !in h1 && '\n' !in typeLine && '\n' !in fastLine && '\n' !in h2 && '\n' !in sizeLine
    ensures Split("\n" + h1 + "\n" + typeLine + "\n" + fastLine + "\n"
                  + "\n" + h2 + "\n" + sizeLine + "\n", '\n')
         == ["", h1, typeLine, fastLine, "", h2, sizeLine, ""]
  {
    var intText := "\n" + h2 + "\n" + sizeLine + "\n";
    LastSectionLines(h2, sizeLine);
    SplitCons(fastLine, intText, '\n');
    SectionLines(h1, typeLine, fastLine + "\n" + intText);
    assert "\n" + h1 + "\n" + typeLine + "\n" + fastLine + "\n"
                  + "\n" + h2 + "\n" + sizeLine + "\n"
        == "\n" + h1 + "\n" + typeLine + "\n" + (fastLine + "\n" + intText);
  }

  lemma WithoutFastJitLines(h1: string, typeLine: string, h2: string, sizeLine: string)
    requires '\n' !in h1 && '\n' !in typeLine && '\n' !in h2 && '\n' !in sizeLine
    ensures Split("\n" + h1 + "\n" + typeLine + "\n"
                  + "\n" + h2 + "\n" + sizeLine + "\n", '\n')
         == ["", h1, typeLine, "", h2, sizeLine, ""]
  {
    var intText := "\n" + h2 + "\n" + sizeLine + "\n";
    LastSectionLines(h2, sizeLine);
    SectionLines(h1, typeLine, intText);
    assert "\n" + h1 + "\n" + typeLine + "\n"
                  + "\n" + h2 + "\n" + sizeLine + "\n"
        == "\n" + h1 + "\n" + typeLine + "\n" + intText;
  }

  /** The generated file consists of exactly the lines above, in that order. */
  lemma ExtraIniHasLines(jit: string, fastJit: Option<string>, blockSize: Option<int>)
    requires '\n' !in jit
    requires FastJitEnabled(fastJit) ==> '\n' !in fastJit.value
    ensures Split(ExtraIni(jit, fastJit, blockSize), '\n') == ExtraIniLines(jit, fastJit, blockSize)
  {
    FormattedIntIsOneLine(blockSize);
    assert '\n' !in StringSection && '\n' !in IntSection;
    var typeLine, sizeLine := JitTypeLine(jit), BlockSizeLine(blockSize);
    if FastJitEnabled(fastJit) {
      var fastLine := FastJitTypeLine(fastJit.value);
      WithFastJitShape(jit, fastJit, blockSize);
      WithFastJitLines(StringSection, typeLine, fastLine, IntSection, sizeLine);
    } else {
      WithoutFastJitShape(jit, fastJit, blockSize);
      WithoutFastJitLines(StringSection, typeLine, IntSection, sizeLine);
    }
  }

  lemma WithFastJitShape(jit: string, fastJit: Option<string>, blockSize: Option<int>)
    requires FastJitEnabled(fastJit)
    ensures ExtraIni(jit, fastJit, blockSize)
         == "\n" + StringSection + "\n" + JitTypeLine(jit) + "\n" + FastJitTypeLine(fastJit.value) + "\n"
              + "\n" + IntSection + "\n" + BlockSizeLine(blockSize) + "\n"
    ensures ExtraIniLines(jit, fastJit, blockSize)
         == ["", StringSection, JitTypeLine(jit), FastJitTypeLine(fastJit.value), "", IntSection, BlockSizeLine(blockSize), ""]
  {
  }

  lemma WithoutFastJitShape(jit: string, fastJit: Option<string>, blockSize: Option<int>)
    requires !FastJitEnabled(fastJit)
    ensures ExtraIni(jit, fastJit, blockSize)
         == "\n" + StringSection + "\n" + JitTypeLine(jit) + "\n"
              + "\n" + IntSection + "\n" + BlockSizeLine(blockSize) + "\n"
    ensures ExtraIniLines(jit, fastJit, blockSize)
         == ["", StringSection, JitTypeLine(jit), "", IntSection, BlockSizeLine(blockSize), ""]
  {
  }

  /** `populate_extra_ini`: assembles the override file's text section by
      section; the text is what gets written to the file. When the names
      hold no line break, the file has exactly the lines listed above. */
  method PopulateExtraIni(jit: string, fastJit: Option<string>, blockSize: Option<int>) returns (content: string)
    ensures content == ExtraIni(jit, fastJit, blockSize)
    ensures '\n' !in jit && (FastJitEnabled(fastJit) ==> '\n' !in fastJit.value) ==>
      Split(content, '\n') == ExtraIniLines(jit, fastJit, blockSize)
  {
    content := "\n" + StringSection + "\n" + JitTypeLine(jit) + "\n";
    if fastJit.Some? && fastJit.value != "" {
      content := content + FastJitTypeLine(fastJit.value) + "\n";
    }
    content := content + "\n" + IntSection + "\n" + BlockSizeLine(blockSize) + "\n";
    if '\n' !in jit && (FastJitEnabled(fastJit) ==> '\n' !in fastJit.value) {
      ExtraIniHasLines(jit, fastJit, blockSize);
    }
  }

  // ---------------------------------------------------------------------
  // Reading the file back: the key/value lookup an INI consumer performs.
  // ---------------------------------------------------------------------

  predicate IsSectionHeader(line: string)
  {
    |line| >= 2 && line[0] == '[' && line[|line| - 1] == ']'
  }

  /** The value of the first `key=value` line inside `[section]`, reading
      from the top of the file. */
  function IniLookup(lines: seq<string>, section: string, key: string): Option<string>
  {
    LookupFrom(lines, None, section, key)
  }

  function LookupFrom(lines: seq<string>, current: Option<string>, section: string, key: string): Option<string>
  {
    if lines == [] then None
    else if IsSectionHeader(lines[0]) then
      LookupFrom(lines[1..], Some(lines[0][1..|lines[0]| - 1]), section, key)
    else if current == Some(section) && StartsWith(lines[0], key + "=") then
      Some(lines[0][|key| + 1..])
    else LookupFrom(lines[1..], current, section, key)
  }

  lemma HeaderNames()
    ensures IsSectionHeader(StringSection) && StringSection[1..|StringSection| - 1] == "StringConfigurations"
    ensures IsSectionHeader(IntSection) && IntSection[1..|IntSection| - 1] == "IntConfigurations"
  {
    StringHeaderName();
    IntHeaderName();
  }

  lemma StringHeaderName()
    ensures IsSectionHeader(StringSection) && StringSection[1..|StringSection| - 1] == "StringConfigurations"
  {
  }

  lemma IntHeaderName()
    ensures IsSectionHeader(IntSection) && IntSection[1..|IntSection| - 1] == "IntConfigurations"
  {
  }

  /** A line that is not a header and does not hold `key` is passed over. */
  lemma LookupSkips(lines: seq<string>, current: Option<string>, section: string, key: string)
    requires lines != [] && !IsSectionHeader(lines[0])
    requires current != Some(section) || !StartsWith(lines[0], key + "=")
    ensures LookupFrom(lines, current, section, key) == LookupFrom(lines[1..], current, section, key)
  {
  }

  /** The first two lines of the file open the string section. */
  lemma OpensStringSection(lines: seq<string>, section: string, key: string)
    requires |lines| >= 3 && lines[0] == "" && lines[1] == StringSection
    ensures IniLookup(lines, section, key)
         == LookupFrom(lines[2..], Some("StringConfigurations"), section, key)
  {
    HeaderNames();
    assert !IsSectionHeader(lines[0]);
    assert LookupFrom(lines, None, section, key) == LookupFrom(lines[1..], None, section, key);
    var rest := lines[1..];
    assert rest[0] == StringSection && rest[1..] == lines[2..];
    assert LookupFrom(rest, None, section, key) == LookupFrom(rest[1..], Some("StringConfigurations"), section, key);
  }

  /** The simulator reads back the JIT it was told to use. */
  lemma ReadJitType(jit: string, fastJit: Option<string>, blockSize: Option<int>)
    requires '\n' !in jit
    requires FastJitEnabled(fastJit) ==> '\n' !in fastJit.value
    ensures IniLookup(Split(ExtraIni(jit, fastJit, blockSize), '\n'), "StringConfigurations", "jit.type")
         == Some(jit + "JIT")
  {
    ExtraIniHasLines(jit, fastJit, blockSize);
    var lines := ExtraIniLines(jit, fastJit, blockSize);
    OpensStringSection(lines, "StringConfigurations", "jit.type");
    TypeLineHoldsJit(jit);
    LookupHits(lines[2..], "StringConfigurations", "jit.type");
  }

  lemma TypeLineHoldsJit(jit: string)
    ensures !IsSectionHeader(JitTypeLine(jit)) && StartsWith(JitTypeLine(jit), "jit.type=")
    ensures JitTypeLine(jit)[9..] == jit + "JIT"
  {
  }

  /** A line holding the key, inside the wanted section, gives the value. */
  lemma LookupHits(lines: seq<string>, section: string, key: string)
    requires lines != [] && !IsSectionHeader(lines[0]) && StartsWith(lines[0], key + "=")
    ensures LookupFrom(lines, Some(section), section, key) == Some(lines[0][|key| + 1..])
  {
  }

  /** Lines that are neither headers nor hold the key are passed over. */
  lemma {:induction false} LookupSkipsAll(pre: seq<string>, rest: seq<string>, current: Option<string>, section: string, key: string)
    requires forall i | 0 <= i < |pre| :: !IsSectionHeader(pre[i])
    requires forall i | 0 <= i < |pre| :: current != Some(section) || !StartsWith(pre[i], key + "=")
    ensures LookupFrom(pre + rest, current, section, key) == LookupFrom(rest, current, section, key)
  {
    if pre != [] {
      assert (pre + rest)[0] == pre[0];
      assert (pre + rest)[1..] == pre[1..] + rest;
      LookupSkips(pre + rest, current, section, key);
      LookupSkipsAll(pre[1..], rest, current, section, key);
    } else {
      assert pre + rest == rest;
    }
  }

  /** The integer section at the end of the file. */
  lemma IntSectionTail(sizeLine: string, current: Option<string>, section: string, key: string)
    requires !IsSectionHeader(sizeLine)
    ensures LookupFrom(["", IntSection, sizeLine, ""], current, section, key)
         == if section == "IntConfigurations" && StartsWith(sizeLine, key + "=") then Some(sizeLine[|key| + 1..]) else None
  {
    HeaderNames();
    var tail := ["", IntSection, sizeLine, ""];
    assert !StartsWith("", key + "=");
    assert LookupFrom(tail, current, section, key) == LookupFrom(tail[1..], current, section, key);
    var t1 := tail[1..];
    assert t1[0] == IntSection && t1[1..] == [sizeLine, ""];
    assert LookupFrom(t1, current, section, key) == LookupFrom([sizeLine, ""], Some("IntConfigurations"), section, key);
    if !(section == "IntConfigurations" && StartsWith(sizeLine, key + "=")) {
      var t3 := [sizeLine, ""][1..];
      assert t3 == [""];
      assert LookupFrom([sizeLine, ""], Some("IntConfigurations"), section, key)
          == LookupFrom(t3, Some("IntConfigurations"), section, key);
      assert LookupFrom(t3, Some("IntConfigurations"), section, key) == LookupFrom([], Some("IntConfigurations"), section, key);
    }
  }

  lemma SizeLineIsNotHeader(blockSize: Option<int>)
    ensures !IsSectionHeader(BlockSizeLine(blockSize))
    ensures StartsWith(BlockSizeLine(blockSize), "etiss.max_block_size=")
    ensures BlockSizeLine(blockSize)[21..] == FormatOptionalInt(blockSize)
  {
  }

  /** The fast JIT is read back exactly when one was given. */
  lemma ReadFastJitType(jit: string, fastJit: Option<string>, blockSize: Option<int>)
    requires '\n' !in jit
    requires FastJitEnabled(fastJit) ==> '\n' !in fastJit.value
    ensures IniLookup(Split(ExtraIni(jit, fastJit, blockSize), '\n'), "StringConfigurations", "jit.fast_type")
         == if FastJitEnabled(fastJit) then Some(fastJit.value + "JIT") else None
  {
    ExtraIniHasLines(jit, fastJit, blockSize);
    PastJitType(jit, fastJit, blockSize);
    if FastJitEnabled(fastJit) {
      FastJitTail(jit, fastJit, blockSize);
    } else {
      NoFastJitTail(jit, fastJit, blockSize);
    }
  }

  /** Looking for the fast JIT, the string section's first setting is passed over. */
  lemma PastJitType(jit: string, fastJit: Option<string>, blockSize: Option<int>)
    ensures IniLookup(ExtraIniLines(jit, fastJit, blockSize), "StringConfigurations", "jit.fast_type")
         == LookupFrom(ExtraIniLines(jit, fastJit, blockSize)[3..], Some("StringConfigurations"), "StringConfigurations", "jit.fast_type")
  {
    var section, key := "StringConfigurations", "jit.fast_type";
    var lines := ExtraIniLines(jit, fastJit, blockSize);
    OpensStringSection(lines, section, key);
    TypeLineIsNotFastType(jit);
    LookupSkips(lines[2..], Some(section), section, key);
    assert lines[2..][1..] == lines[3..];
  }

  /** With a fast JIT, the line after the JIT type names it. */
  lemma FastJitTail(jit: string, fastJit: Option<string>, blockSize: Option<int>)
    requires FastJitEnabled(fastJit)
    ensures LookupFrom(ExtraIniLines(jit, fastJit, blockSize)[3..], Some("StringConfigurations"), "StringConfigurations", "jit.fast_type")
         == Some(fastJit.value + "JIT")
  {
    var tail := ExtraIniLines(jit, fastJit, blockSize)[3..];
    assert tail[0] == FastJitTypeLine(fastJit.value);
    FastLineHoldsFastJit(fastJit.value);
    LookupHits(tail, "StringConfigurations", "jit.fast_type");
  }

  /** Without a fast JIT, the string section ends after the JIT type. */
  lemma NoFastJitTail(jit: string, fastJit: Option<string>, blockSize: Option<int>)
    requires !FastJitEnabled(fastJit)
    ensures LookupFrom(ExtraIniLines(jit, fastJit, blockSize)[3..], Some("StringConfigurations"), "StringConfigurations", "jit.fast_type") == None
  {
    var sizeLine := BlockSizeLine(blockSize);
    SizeLineIsNotHeader(blockSize);
    assert ExtraIniLines(jit, fastJit, blockSize)[3..] == ["", IntSection, sizeLine, ""];
    IntSectionTail(sizeLine, Some("StringConfigurations"), "StringConfigurations", "jit.fast_type");
  }

  lemma TypeLineIsNotFastType(jit: string)
    ensures !IsSectionHeader(JitTypeLine(jit)) && !StartsWith(JitTypeLine(jit), "jit.fast_type=")
  {
    assert JitTypeLine(jit)[4] != "jit.fast_type="[4];
  }

  lemma FastLineHoldsFastJit(fastJit: string)
    ensures !IsSectionHeader(FastJitTypeLine(fastJit)) && StartsWith(FastJitTypeLine(fastJit), "jit.fast_type=")
    ensures FastJitTypeLine(fastJit)[14..] == fastJit + "JIT"
  {
  }

  /** Outside the string section, only the last four lines of the file matter. */
  lemma LookupPastStringSection(jit: string, fastJit: Option<string>, blockSize: Option<int>, section: string, key: string)
    requires '\n' !in jit
    requires FastJitEnabled(fastJit) ==> '\n' !in fastJit.value
    requires section != "StringConfigurations"
    ensures IniLookup(Split(ExtraIni(jit, fastJit, blockSize), '\n'), section, key)
         == LookupFrom(["", IntSection, BlockSizeLine(blockSize), ""], Some("StringConfigurations"), section, key)
  {
    ExtraIniHasLines(jit, fastJit, blockSize);
    SkipStringSettings(jit, fastJit, blockSize, section, key);
  }

  /** Past the string section's header, its settings are passed over unless
      the lookup is for a string setting whose key starts like a JIT one. */
  lemma SkipStringSettings(jit: string, fastJit: Option<string>, blockSize: Option<int>, section: string, key: string)
    requires section != "StringConfigurations" || (key != [] && key[0] != 'j')
    ensures IniLookup(ExtraIniLines(jit, fastJit, blockSize), section, key)
         == LookupFrom(["", IntSection, BlockSizeLine(blockSize), ""], Some("StringConfigurations"), section, key)
  {
    var lines := ExtraIniLines(jit, fastJit, blockSize);
    var pre := StringSettings(jit, fastJit);
    var tail := ["", IntSection, BlockSizeLine(blockSize), ""];
    assert lines[2..] == pre + tail;
    OpensStringSection(lines, section, key);
    forall i | 0 <= i < |pre|
      ensures !IsSectionHeader(pre[i])
      ensures section != "StringConfigurations" || !StartsWith(pre[i], key + "=")
    {
      if section == "StringConfigurations" {
        assert (key + "=")[0] == key[0];
      }
    }
    LookupSkipsAll(pre, tail, Some("StringConfigurations"), section, key);
  }

  /** The block size is read back, as the integer it was. */
  lemma ReadBlockSize(jit: string, fastJit: Option<string>, blockSize: Option<int>)
    requires '\n' !in jit
    requires FastJitEnabled(fastJit) ==> '\n' !in fastJit.value
    ensures IniLookup(Split(ExtraIni(jit, fastJit, blockSize), '\n'), "IntConfigurations", "etiss.max_block_size")
         == Some(FormatOptionalInt(blockSize))
    ensures blockSize.Some? ==> ParseInt(FormatOptionalInt(blockSize)) == blockSize
  {
    var section, key := "IntConfigurations", "etiss.max_block_size";
    LookupPastStringSection(jit, fastJit, blockSize, section, key);
    SizeLineIsNotHeader(blockSize);
    IntSectionTail(BlockSizeLine(blockSize), Some("StringConfigurations"), section, key);
    if blockSize.Some? {
      ParseIntRoundTrip(blockSize.value);
    }
  }

  /** The JIT type is not an integer setting. */
  lemma JitTypeIsNotInt(jit: string, fastJit: Option<string>, blockSize: Option<int>)
    requires '\n' !in jit
    requires FastJitEnabled(fastJit) ==> '\n' !in fastJit.value
    ensures IniLookup(Split(ExtraIni(jit, fastJit, blockSize), '\n'), "IntConfigurations", "jit.type") == None
  {
    var section, key := "IntConfigurations", "jit.type";
    LookupPastStringSection(jit, fastJit, blockSize, section, key);
    SizeLineIsNotHeader(blockSize);
    SizeLineIsNotJitType(blockSize);
    IntSectionTail(BlockSizeLine(blockSize), Some("StringConfigurations"), section, key);
  }

  lemma SizeLineIsNotJitType(blockSize: Option<int>)
    ensures !StartsWith(BlockSizeLine(blockSize), "jit.type=")
  {
    assert BlockSizeLine(blockSize)[0] != "jit.type="[0];
  }

  /** The block size is not a string setting. */
  lemma BlockSizeIsNotString(jit: string, fastJit: Option<string>, blockSize: Option<int>)
    requires '\n' !in jit
    requires FastJitEnabled(fastJit) ==> '\n' !in fastJit.value
    ensures IniLookup(Split(ExtraIni(jit, fastJit, blockSize), '\n'), "StringConfigurations", "etiss.max_block_size") == None
  {
    var section, key := "StringConfigurations", "etiss.max_block_size";
    ExtraIniHasLines(jit, fastJit, blockSize);
    SkipStringSettings(jit, fastJit, blockSize, section, key);
    SizeLineIsNotHeader(blockSize);
    IntSectionTail(BlockSizeLine(blockSize), Some("StringConfigurations"), section, key);
  }

  // ---------------------------------------------------------------------
  // The simulator command line
  // ---------------------------------------------------------------------

  const IniDir := "/build/install/ini/"
  const IniSuffix := ".ini"
  const IncludeFlag := "-i"
  const ArchFlag := "--arch.cpu="
  const Blank := " "

  /** The per-program configuration installed with the example programs. */
  function ProgramIniPath(examplesDir: string, prog: string): string
  {
    examplesDir + IniDir + prog + IniSuffix
  }

  const ExtraIniName := "/extra.ini"

  /** The path the extra configuration is written to, inside the work directory. */
  function ExtraIniPath(workdir: string): string
  {
    workdir + ExtraIniName
  }

  /** The shell command that runs the simulator on `prog` with both
      configuration files and the chosen CPU model. */
  function EtissCommand(etissExe: string, examplesDir: string, extraIni: string, prog: string, etissArch: string): string
  {
    etissExe + Blank + IncludeFlag + ProgramIniPath(examplesDir, prog)
      + Blank + IncludeFlag + extraIni + Blank + ArchFlag + etissArch
  }

  lemma SingleWord(w: string, sep: char)
    requires sep !in w
    ensures Split(w, sep) == [w]
  {
    SplitJoin([w], sep);
  }

  lemma FlagsHaveNoBlank()
    ensures ' ' !in IniDir && ' ' !in IniSuffix && ' ' !in IncludeFlag && ' ' !in ArchFlag
    ensures Blank == [' ']
  {
  }

  /** Split on blanks, the command is the simulator followed by exactly
      three arguments: the program's configuration, the extra
      configuration and the CPU model. */
  lemma CommandArguments(etissExe: string, examplesDir: string, extraIni: string, prog: string, etissArch: string)
    requires ' ' !in etissExe && ' ' !in examplesDir && ' ' !in extraIni && ' ' !in prog && ' ' !in etissArch
    ensures Split(EtissCommand(etissExe, examplesDir, extraIni, prog, etissArch), ' ')
         == [etissExe, IncludeFlag + ProgramIniPath(examplesDir, prog), IncludeFlag + extraIni, ArchFlag + etissArch]
  {
    FlagsHaveNoBlank();
    var w1 := IncludeFlag + ProgramIniPath(examplesDir, prog);
    var w2 := IncludeFlag + extraIni;
    var w3 := ArchFlag + etissArch;
    assert ' ' !in w1 && ' ' !in w2 && ' ' !in w3;
    SingleWord(w3, ' ');
    SplitCons(w2, w3, ' ');
    SplitCons(w1, w2 + [' '] + w3, ' ');
    SplitCons(etissExe, w1 + [' '] + (w2 + [' '] + w3), ' ');
    CommandIsWords(etissExe, examplesDir, extraIni, prog, etissArch);
  }

  /** The command is its four words joined by single blanks. */
  lemma CommandIsWords(etissExe: string, examplesDir: string, extraIni: string, prog: string, etissArch: string)
    ensures EtissCommand(etissExe, examplesDir, extraIni, prog, etissArch)
         == etissExe + [' '] + ((IncludeFlag + ProgramIniPath(examplesDir, prog)) + [' ']
              + ((IncludeFlag + extraIni) + [' '] + (ArchFlag + etissArch)))
  {
  }
}
