/**
 * The command strings the SSH client sends to a DUT, and the parsing of a
 * DUT's `show interface` output into an interface record. The SSH transport
 * itself is outside the model: `Exec` is a function parameter of
 * GetInterface, from the command text to its output or error.
 *
 * Characters stand for bytes; the output of a DUT is taken to be ASCII.
 */
module DutSsh {
  import opened Wrappers
  import opened GoStrings

  datatype DutInterface = DutInterface(name: string, macAddr: string, ipv4Addr: string, ipv6Addr: string)

  /** How GetInterface ends: an interface record, the error of `Exec`, or the
      runtime panic of slicing a dotted word shorter than 14 characters. */
  datatype InterfaceResult =
    | Found(ifc: DutInterface)
    | ExecFailed(error: string)
    | SlicePanic

  // ---------------------------------------------------------------------
  // Command strings

  /** The preamble that enters configuration mode. */
  const ConfigPreamble := "enable\nconfig terminal\n"

  /** The command ResetDutConfig executes. */
  const ResetCommand := ConfigPreamble + "reset"

  /** The command GetInterface executes. */
  function ShowInterfaceCommand(name: string): string
  {
    "show interface " + name
  }

  /** PushDutConfigFile: the command it hands to `Exec` (the preamble followed by
      the file's contents), or, when reading the file failed, its error, in which
      case nothing is executed. */
  function ConfigPushCommand(location: string, read: Result<string, string>): (r: Result<string, string>)
    ensures r.Ok? <==> read.Ok?
    ensures r.Ok? ==> |r.value| == |ConfigPreamble| + |read.value| && r.value[|ConfigPreamble|..] == read.value
  {
    match read
    case Ok(contents) => Ok(ConfigPreamble + contents)
    case Err(e) => Err("could not read DUT config " + location + ": " + e)
  }

  /** Two separator-free lines in front of any text split off as two pieces. */
  lemma TwoLinesBefore(a: string, b: string, rest: string)
    requires '\n' !in a && '\n' !in b
    ensures Split(a + ['\n'] + (b + ['\n'] + rest), '\n') == [a, b] + Split(rest, '\n')
  {
    SplitConcat(b, rest, '\n');
    SplitOfPlain(b, '\n');
    ghost var tail := Split(b + ['\n'] + rest, '\n');
    assert tail == [b] + Split(rest, '\n');
    SplitConcat(a, b + ['\n'] + rest, '\n');
    SplitOfPlain(a, '\n');
    assert [a] + tail == [a, b] + Split(rest, '\n');
  }

  /** The DUT receives "enable", "config terminal" and then the file's lines, unchanged. */
  lemma ConfigPushLines(location: string, contents: string)
    ensures var cmd := ConfigPushCommand(location, Ok(contents));
      cmd.Ok? && Split(cmd.value, '\n') == ["enable", "config terminal"] + Split(contents, '\n')
  {
    assert ConfigPreamble + contents == "enable" + ['\n'] + ("config terminal" + ['\n'] + contents);
    TwoLinesBefore("enable", "config terminal", contents);
  }

  /** The reset command is the three lines "enable", "config terminal", "reset". */
  lemma ResetCommandLines()
    ensures Split(ResetCommand, '\n') == ["enable", "config terminal", "reset"]
  {
    ConfigPushLines("", "reset");
    SplitOfPlain("reset", '\n');
  }

  // ---------------------------------------------------------------------
  // MAC and IPv4 words

  const HardwareMarker := "Hardware is Ethernet"
  const AddressMarker := "Internet address"

  /** A colon-form MAC address: 17 characters with ':' at offsets 2, 5, 8, 11 and 14. */
  predicate IsColonMac(m: string)
  {
    |m| == 17 && m[2] == ':' && m[5] == ':' && m[8] == ':' && m[11] == ':' && m[14] == ':'
  }

  /** Reformat the first 14 characters of a Cisco dotted word `aabb.ccdd.eeff` to `aa:bb:cc:dd:ee:ff`. */
  function ColonMac(w: string): (r: string)
    requires |w| >= 14
    ensures IsColonMac(r)
  {
    w[0..2] + ":" + w[2..4] + ":" + w[5..7] + ":" + w[7..9] + ":" + w[10..12] + ":" + w[12..14]
  }

  /** A Cisco dotted MAC address: 14 characters with '.' at offsets 4 and 9. */
  predicate IsDottedMac(w: string)
  {
    |w| == 14 && w[4] == '.' && w[9] == '.'
  }

  /** The inverse reformatting, colon form back to dotted form. */
  function DottedMac(m: string): string
    requires IsColonMac(m)
  {
    m[0..2] + m[3..5] + "." + m[6..8] + m[9..11] + "." + m[12..14] + m[15..17]
  }

  /** Reformatting a dotted MAC loses nothing: it can be read back exactly. */
  lemma DottedMacRoundTrip(w: string)
    requires IsDottedMac(w)
    ensures DottedMac(ColonMac(w)) == w
  {
    var m := ColonMac(w);
    assert m[0..2] == w[0..2] && m[3..5] == w[2..4] && m[6..8] == w[5..7];
    assert m[9..11] == w[7..9] && m[12..14] == w[10..12] && m[15..17] == w[12..14];
    assert w == w[0..2] + w[2..4] + "." + w[5..7] + w[7..9] + "." + w[10..12] + w[12..14];
  }

  /** `strings.Split(word, "/")[0]`: the part of a word before its first '/'. */
  function BeforeSlash(w: string): string
  {
    Split(w, '/')[0]
  }

  /** The address kept from a word has no '/', is a prefix of the word, and is
      the whole word when it has no '/'. */
  lemma BeforeSlashPrefix(w: string)
    ensures '/' !in BeforeSlash(w)
    ensures BeforeSlash(w) <= w
    ensures '/' !in w ==> BeforeSlash(w) == w
  {
    var pieces := Split(w, '/');
    SplitPiecesPlain(w, '/');
    JoinOfSplit(w, '/');
    if |pieces| > 1 {
      assert Join(pieces, '/') == pieces[0] + (['/'] + Join(pieces[1..], '/'));
    }
    if '/' !in w {
      SplitOfPlain(w, '/');
    }
  }

  // ---------------------------------------------------------------------
  // The words that set each field

  datatype Field = MacField | Ipv4Field

  /** The words of a list that contain '.', in order. */
  function Dotted(words: seq<string>): (r: seq<string>)
    decreases |words|
  {
    if |words| == 0 then []
    else Dotted(words[..|words| - 1]) + (if '.' in words[|words| - 1] then [words[|words| - 1]] else [])
  }

  /** The words of one line that set a field: the dotted words of a line with the
      hardware marker set the MAC; those of any other line with the address
      marker set the IPv4 address. */
  function LineWords(line: string, f: Field): seq<string>
  {
    var words := Dotted(Split(line, ' '));
    if Contains(line, HardwareMarker) then (if f == MacField then words else [])
    else if Contains(line, AddressMarker) then (if f == Ipv4Field then words else [])
    else []
  }

  /** The words, over all lines in order, that set a field. */
  function Words(lines: seq<string>, f: Field): seq<string>
    decreases |lines|
  {
    if |lines| == 0 then [] else Words(lines[..|lines| - 1], f) + LineWords(lines[|lines| - 1], f)
  }

  predicate AllSliceable(ws: seq<string>)
  {
    forall i :: 0 <= i < |ws| ==> |ws[i]| >= 14
  }

  /** The MAC field after the given words were written in turn: the last one wins. */
  function MacOf(ws: seq<string>): string
    requires AllSliceable(ws)
  {
    if |ws| == 0 then "" else ColonMac(ws[|ws| - 1])
  }

  /** The IPv4 field after the given words were written in turn: the last one wins. */
  function Ipv4Of(ws: seq<string>): string
  {
    if |ws| == 0 then "" else BeforeSlash(ws[|ws| - 1])
  }

  /** What `show interface` output parses to: a panic if a MAC word is too short
      to slice, and otherwise the requested name, the MAC from the last dotted
      word on a hardware line, the IPv4 address from the last dotted word on an
      address line, and no IPv6 address. */
  function ParseShowInterface(name: string, out: string): InterfaceResult
  {
    ParseLines(name, Split(out, '\n'))
  }

  /** The parse of the output's lines. */
  function ParseLines(name: string, lines: seq<string>): InterfaceResult
  {
    var macs := Words(lines, MacField);
    if !AllSliceable(macs) then SlicePanic
    else Found(DutInterface(name, MacOf(macs), Ipv4Of(Words(lines, Ipv4Field)), ""))
  }

  /** A parsed interface keeps the requested name, has no IPv6 address, and has
      a MAC in colon form (or none) and an IPv4 address without a prefix length. */
  lemma ParsedInterfaceShape(name: string, out: string)
    ensures var r := ParseShowInterface(name, out);
      && !r.ExecFailed?
      && (r.Found? ==> r.ifc.name == name && r.ifc.ipv6Addr == "")
      && (r.Found? ==> r.ifc.macAddr == "" || IsColonMac(r.ifc.macAddr))
      && (r.Found? ==> '/' !in r.ifc.ipv4Addr)
  {
    var ips := Words(Split(out, '\n'), Ipv4Field);
    if |ips| > 0 {
      BeforeSlashPrefix(ips[|ips| - 1]);
    }
  }

  lemma {:induction false} DottedPrefix(words: seq<string>, j: nat)
    requires j <= |words|
    ensures Dotted(words[..j]) <= Dotted(words)
    decreases |words| - j
  {
    if j < |words| {
      DottedPrefix(words, j + 1);
      assert words[..j + 1][..j] == words[..j];
    } else {
      assert words[..j] == words;
    }
  }

  lemma {:induction false} WordsPrefix(lines: seq<string>, k: nat, f: Field)
    requires k <= |lines|
    ensures Words(lines[..k], f) <= Words(lines, f)
    decreases |lines| - k
  {
    if k < |lines| {
      WordsPrefix(lines, k + 1, f);
      assert lines[..k + 1][..k] == lines[..k];
    } else {
      assert lines[..k] == lines;
    }
  }

  /** A MAC word written after sliceable words is the MAC that stands. */
  lemma MacOfSnoc(macs: seq<string>, w: string)
    requires AllSliceable(macs) && |w| >= 14
    ensures AllSliceable(macs + [w]) && MacOf(macs + [w]) == ColonMac(w)
  {
    var macs' := macs + [w];
    assert forall i :: 0 <= i < |macs'| ==> macs'[i] == if i < |macs| then macs[i] else w;
  }

  /** The word loop of a hardware line: each dotted word overwrites the MAC, and
      a dotted word too short to slice panics. */
  method ScanMacWords(words: seq<string>, mac0: string, ghost before: seq<string>)
    returns (mac: string, panics: bool)
    requires AllSliceable(before) && mac0 == MacOf(before)
    ensures panics <==> !AllSliceable(Dotted(words))
    ensures !panics ==> AllSliceable(before + Dotted(words)) && mac == MacOf(before + Dotted(words))
  {
    mac := mac0;
    ghost var seen: seq<string> := [];
    assert before + [] == before;
    for j := 0 to |words|
      invariant seen == Dotted(words[..j])
      invariant AllSliceable(seen) && AllSliceable(before + seen)
      invariant mac == MacOf(before + seen)
    {
      var w := words[j];
      DottedStep(words, j);
      if '.' in w {
        if |w| < 14 {
          ShortDottedWordPanics(words, j);
          return mac, true;
        }
        MacStep(before, seen, w);
        mac := ColonMac(w);
        seen := seen + [w];
      } else {
        assert seen + [] == seen;
      }
    }
    assert words[..|words|] == words;
    return mac, false;
  }

  lemma DottedStep(words: seq<string>, j: nat)
    requires j < |words|
    ensures Dotted(words[..j + 1]) == Dotted(words[..j]) + if '.' in words[j] then [words[j]] else []
  {
    assert words[..j + 1][..j] == words[..j];
  }

  /** A dotted word too short to slice leaves the dotted words unsliceable. */
  lemma ShortDottedWordPanics(words: seq<string>, j: nat)
    requires j < |words| && '.' in words[j] && |words[j]| < 14
    ensures !AllSliceable(Dotted(words))
  {
    DottedStep(words, j);
    DottedPrefix(words, j + 1);
    assert words[..|words|] == words;
    assert Dotted(words)[|Dotted(words[..j])|] == words[j];
  }

  /** One more sliceable dotted word keeps the words sliceable and becomes the MAC. */
  lemma MacStep(before: seq<string>, seen: seq<string>, w: string)
    requires AllSliceable(seen) && AllSliceable(before + seen) && |w| >= 14
    ensures AllSliceable(seen + [w]) && AllSliceable(before + (seen + [w]))
    ensures MacOf(before + (seen + [w])) == ColonMac(w)
  {
    assert before + (seen + [w]) == (before + seen) + [w];
    MacOfSnoc(seen, w);
    MacOfSnoc(before + seen, w);
  }

  /** The word loop of an address line: each dotted word overwrites the IPv4 address. */
  method ScanIpv4Words(words: seq<string>, ipv40: string, ghost before: seq<string>)
    returns (ipv4: string)
    requires ipv40 == Ipv4Of(before)
    ensures ipv4 == Ipv4Of(before + Dotted(words))
  {
    ipv4 := ipv40;
    for j := 0 to |words|
      invariant ipv4 == Ipv4Of(before + Dotted(words[..j]))
    {
      var w := words[j];
      assert words[..j + 1][..j] == words[..j];
      ghost var seen := Dotted(words[..j]);
      assert Dotted(words[..j + 1]) == seen + if '.' in w then [w] else [];
      if '.' in w {
        assert before + Dotted(words[..j + 1]) == (before + seen) + [w];
        ipv4 := BeforeSlash(w);
      } else {
        assert before + Dotted(words[..j + 1]) == before + seen;
      }
    }
    assert words[..|words|] == words;
  }

  /** One line of the output: a hardware line feeds its words to the MAC, any
      other line with the address marker feeds them to the IPv4 address. */
  method ScanLine(line: string, mac0: string, ipv40: string, ghost macs: seq<string>, ghost ips: seq<string>)
    returns (mac: string, ipv4: string, panics: bool)
    requires AllSliceable(macs) && mac0 == MacOf(macs) && ipv40 == Ipv4Of(ips)
    ensures panics <==> !AllSliceable(LineWords(line, MacField))
    ensures !panics ==> AllSliceable(macs + LineWords(line, MacField))
    ensures !panics ==> mac == MacOf(macs + LineWords(line, MacField))
    ensures !panics ==> ipv4 == Ipv4Of(ips + LineWords(line, Ipv4Field))
  {
    var words := Split(line, ' ');
    mac, ipv4, panics := mac0, ipv40, false;
    if Contains(line, HardwareMarker) {
      assert LineWords(line, MacField) == Dotted(words);
      assert LineWords(line, Ipv4Field) == [];
      assert ips + [] == ips;
      mac, panics := ScanMacWords(words, mac0, macs);
    } else if Contains(line, AddressMarker) {
      assert LineWords(line, Ipv4Field) == Dotted(words);
      assert LineWords(line, MacField) == [];
      assert macs + [] == macs;
      ipv4 := ScanIpv4Words(words, ipv40, ips);
    } else {
      assert LineWords(line, MacField) == [] && LineWords(line, Ipv4Field) == [];
      assert macs + [] == macs && ips + [] == ips;
    }
  }

  /** One MAC word too short to slice anywhere in the output makes the whole parse panic. */
  lemma UnsliceableLinePanics(lines: seq<string>, i: nat, k: nat)
    requires i < |lines| && k < |LineWords(lines[i], MacField)| && |LineWords(lines[i], MacField)[k]| < 14
    ensures !AllSliceable(Words(lines, MacField))
  {
    var pre := Words(lines[..i], MacField);
    var upTo := Words(lines[..i + 1], MacField);
    WordsStep(lines, i, MacField);
    assert upTo[|pre| + k] == LineWords(lines[i], MacField)[k];
    WordsPrefix(lines, i + 1, MacField);
    assert Words(lines, MacField)[|pre| + k] == upTo[|pre| + k];
  }

  /** GetInterface: run `show interface <name>` and scan its output line by line
      and word by word, overwriting the MAC and IPv4 fields at every match. */
  method GetInterface(name: string, exec: string -> Result<string, string>) returns (r: InterfaceResult)
    ensures var out := exec(ShowInterfaceCommand(name));
      && (out.Err? ==> r == ExecFailed(out.error))
      && (out.Ok? ==> r == ParseShowInterface(name, out.value))
  {
    var out := exec(ShowInterfaceCommand(name));
    if out.Err? {
      return ExecFailed(out.error);
    }
    var mac, ipv4 := "", "";
    var lines := Split(out.value, '\n');
    ghost var macs: seq<string> := [];
    ghost var ips: seq<string> := [];
    for i := 0 to |lines|
      invariant macs == Words(lines[..i], MacField) && ips == Words(lines[..i], Ipv4Field)
      invariant AllSliceable(macs)
      invariant mac == MacOf(macs) && ipv4 == Ipv4Of(ips)
    {
      var line := lines[i];
      WordsStep(lines, i, MacField);
      WordsStep(lines, i, Ipv4Field);
      var panics;
      mac, ipv4, panics := ScanLine(line, mac, ipv4, macs, ips);
      if panics {
        ghost var d := LineWords(line, MacField);
        ghost var k :| 0 <= k < |d| && |d[k]| < 14;
        UnsliceableLinePanics(lines, i, k);
        return SlicePanic;
      }
      macs := macs + LineWords(line, MacField);
      ips := ips + LineWords(line, Ipv4Field);
    }
    assert lines[..|lines|] == lines;
    return Found(DutInterface(name, mac, ipv4, ""));
  }

  /** A field no line sets stays empty: without a hardware line there is no MAC,
      and without an address line (outside hardware lines) there is no IPv4 address. */
  lemma {:induction false} UnsetFieldsStayEmpty(lines: seq<string>)
    ensures (forall i :: 0 <= i < |lines| ==> !Contains(lines[i], HardwareMarker)) ==> Words(lines, MacField) == []
    ensures (forall i :: 0 <= i < |lines| ==> !Contains(lines[i], AddressMarker)) ==> Words(lines, Ipv4Field) == []
    decreases |lines|
  {
    if |lines| > 0 {
      UnsetFieldsStayEmpty(lines[..|lines| - 1]);
    }
  }

  /** Appending a line appends that line's words. */
  lemma WordsSnoc(lines: seq<string>, line: string, f: Field)
    ensures Words(lines + [line], f) == Words(lines, f) + LineWords(line, f)
  {
    assert (lines + [line])[..|lines|] == lines;
  }

  lemma WordsStep(lines: seq<string>, i: nat, f: Field)
    requires i < |lines|
    ensures Words(lines[..i + 1], f) == Words(lines[..i], f) + LineWords(lines[i], f)
  {
    assert lines[..i + 1] == lines[..i] + [lines[i]];
    WordsSnoc(lines[..i], lines[i], f);
  }

  /** The lines of output with one more line appended. */
  lemma LinesSnoc(out: string, line: string)
    requires '\n' !in line
    ensures Split(out + "\n" + line, '\n') == Split(out, '\n') + [line]
  {
    SplitConcat(out, line, '\n');
    SplitOfPlain(line, '\n');
    assert out + "\n" + line == out + ['\n'] + line;
  }

  /** The last matching line wins: a final hardware line with a single dotted word
      sets the MAC from that word and leaves the IPv4 address as it was, even if
      the line also carries the address marker. */
  lemma LastHardwareLineWins(name: string, out: string, line: string, w: string)
    requires '\n' !in line
    requires Contains(line, HardwareMarker)
    requires Dotted(Split(line, ' ')) == [w] && |w| >= 14
    requires ParseShowInterface(name, out).Found?
    ensures var before := ParseShowInterface(name, out).ifc;
      ParseShowInterface(name, out + "\n" + line) == Found(before.(macAddr := ColonMac(w)))
  {
    var lines := Split(out, '\n');
    LinesSnoc(out, line);
    assert ParseShowInterface(name, out + "\n" + line) == ParseLines(name, lines + [line]);
    WordsSnoc(lines, line, MacField);
    WordsSnoc(lines, line, Ipv4Field);
    assert LineWords(line, MacField) == [w];
    assert LineWords(line, Ipv4Field) == [];
    assert Words(lines, Ipv4Field) + [] == Words(lines, Ipv4Field);
    MacOfSnoc(Words(lines, MacField), w);
  }

  /** Likewise a final address line (without the hardware marker) with a single
      dotted word sets the IPv4 address to that word's part before '/'. */
  lemma LastAddressLineWins(name: string, out: string, line: string, w: string)
    requires '\n' !in line
    requires !Contains(line, HardwareMarker) && Contains(line, AddressMarker)
    requires Dotted(Split(line, ' ')) == [w]
    requires ParseShowInterface(name, out).Found?
    ensures var before := ParseShowInterface(name, out).ifc;
      ParseShowInterface(name, out + "\n" + line) == Found(before.(ipv4Addr := BeforeSlash(w)))
  {
    var lines := Split(out, '\n');
    LinesSnoc(out, line);
    assert ParseShowInterface(name, out + "\n" + line) == ParseLines(name, lines + [line]);
    WordsSnoc(lines, line, MacField);
    WordsSnoc(lines, line, Ipv4Field);
    assert LineWords(line, MacField) == [];
    assert LineWords(line, Ipv4Field) == [w];
    assert Words(lines, MacField) + [] == Words(lines, MacField);
  }
}
