/** device_cpu_capabilities: the names of the instruction sets the CPU
    supports, in a fixed order, separated by single spaces. */
module Capabilities {
  import opened Wrappers
  import opened KernelDispatch


  /** The name each probe contributes (note "SSE41", not the "SSE4.1" of the
      dispatch notice). */
  function CapabilityName(t: Tier): string {
    match t
    case Default => ""
    case Sse2 => "SSE2"
    case Sse3 => "SSE3"
    case Sse41 => "SSE41"
    case Avx => "AVX"
    case Avx2 => "AVX2"
  }

  /** The names of the supported instruction sets, lowest tier first. */
  function SupportedNames(cpu: IsaFlags): seq<string> {
    LowerNames(cpu) + Listed(cpu.avx2, "AVX2")
  }

  /** The one-name list when the probe answers true, else nothing. */
  function Listed(present: bool, name: string): seq<string> {
    if present then [name] else []
  }

  /** The piece one probe appends: its text when it answers true, else nothing. */
  function Appended(present: bool, piece: string): string {
    if present then piece else ""
  }

  /** A name is listed exactly when its probe answers true. */
  lemma SupportedNamesExact(cpu: IsaFlags, t: Tier)
    requires t != Default
    ensures CapabilityName(t) in SupportedNames(cpu) <==> Has(cpu, t)
  {
  }

  // ---------------------------------------------------------------------
  // Space-separated words

  predicate IsWord(w: string) {
    w != [] && ' ' !in w
  }

  /** The words separated by single spaces, with no leading or trailing space. */
  function Join(words: seq<string>): string {
    if words == [] then ""
    else if |words| == 1 then words[0]
    else words[0] + " " + Join(words[1..])
  }

  /** Index of the first space in s. */
  function FirstSpace(s: string): (i: nat)
    requires ' ' in s
    ensures i < |s| && s[i] == ' ' && ' ' !in s[..i]
  {
    if s[0] == ' ' then 0
    else
      var j := FirstSpace(s[1..]);
      assert s[..j + 1] == [s[0]] + s[1..][..j];
      j + 1
  }

  /** s cut at every space. */
  function Fields(s: string): seq<string>
    decreases |s|
  {
    if ' ' !in s then [s]
    else
      var i := FirstSpace(s);
      [s[..i]] + Fields(s[i + 1..])
  }

  /** The words of a string; the empty string has none. */
  function Words(s: string): seq<string> {
    if s == "" then [] else Fields(s)
  }

  /** The first space of w + " " + rest, for a word w, is the one after w. */
  lemma {:induction false} FirstSpaceAfterWord(w: string, rest: string)
    requires ' ' !in w
    ensures FirstSpace(w + " " + rest) == |w|
  {
    var s := w + " " + rest;
    if w != [] {
      assert s[0] == w[0];
      assert s[1..] == w[1..] + " " + rest;
      FirstSpaceAfterWord(w[1..], rest);
    }
  }

  lemma {:induction false} FieldsJoin(words: seq<string>)
    requires |words| > 0
    requires forall k :: 0 <= k < |words| ==> IsWord(words[k])
    ensures Fields(Join(words)) == words
  {
    if |words| > 1 {
      var rest := Join(words[1..]);
      var s := words[0] + " " + rest;
      FirstSpaceAfterWord(words[0], rest);
      assert s[..|words[0]|] == words[0];
      assert s[|words[0]| + 1..] == rest;
      FieldsJoin(words[1..]);
      assert words == [words[0]] + words[1..];
    }
  }

  /** Joining and splitting are inverse: the words of the joined string are
      the words joined. */
  lemma WordsJoin(words: seq<string>)
    requires forall k :: 0 <= k < |words| ==> IsWord(words[k])
    ensures Words(Join(words)) == words
  {
    if words != [] {
      FieldsJoin(words);
      assert Join(words) != "" by { JoinNonEmpty(words); }
    }
  }

  lemma {:induction false} JoinNonEmpty(words: seq<string>)
    requires words != [] && IsWord(words[0])
    ensures |Join(words)| >= |words[0]| > 0
    ensures Join(words)[0] != ' '
  {
  }

  /** The joined string ends in the last word, never in a space. */
  lemma {:induction false} JoinEndsInWord(words: seq<string>)
    requires words != []
    requires forall k :: 0 <= k < |words| ==> IsWord(words[k])
    ensures |Join(words)| > 0 && Join(words)[|Join(words)| - 1] != ' '
  {
    if |words| > 1 {
      JoinEndsInWord(words[1..]);
    }
  }

  // ---------------------------------------------------------------------
  // The string the five appends build

  /** Each name followed by a space. */
  function Spaced(names: seq<string>): string {
    if names == [] then "" else names[0] + " " + Spaced(names[1..])
  }

  lemma {:induction false} SpacedAppend(a: seq<string>, b: seq<string>)
    ensures Spaced(a + b) == Spaced(a) + Spaced(b)
  {
    if a != [] {
      assert (a + b)[0] == a[0];
      assert (a + b)[1..] == a[1..] + b;
      SpacedAppend(a[1..], b);
    } else {
      assert a + b == b;
    }
  }

  /** Names each followed by a space are the joined names plus one space. */
  lemma {:induction false} SpacedIsJoin(names: seq<string>)
    requires names != []
    ensures Spaced(names) == Join(names) + " "
  {
    if |names| > 1 {
      SpacedIsJoin(names[1..]);
    }
  }

  lemma {:induction false} JoinAppendLast(names: seq<string>, w: string)
    requires names != []
    ensures Join(names + [w]) == Join(names) + " " + w
  {
    if |names| > 1 {
      assert (names + [w])[1..] == names[1..] + [w];
      JoinAppendLast(names[1..], w);
    }
  }

  /** The names of the four tiers below AVX2 that the CPU supports. */
  function LowerNames(cpu: IsaFlags): seq<string> {
    Listed(cpu.sse2, "SSE2") + Listed(cpu.sse3, "SSE3") + Listed(cpu.sse41, "SSE41") + Listed(cpu.avx, "AVX")
  }

  /** "SSE2 ", "SSE3 ", "SSE41 ", "AVX " and "AVX2" appended for each probe
      that answers true. */
  function ProbeString(cpu: IsaFlags): string {
    Appended(cpu.sse2, "SSE2 ") + Appended(cpu.sse3, "SSE3 ") + Appended(cpu.sse41, "SSE41 ") +
    Appended(cpu.avx, "AVX ") + Appended(cpu.avx2, "AVX2")
  }

  /** The first four appends are the lower names, each followed by a space. */
  lemma SpacedLowerNames(cpu: IsaFlags)
    ensures Spaced(LowerNames(cpu)) ==
      Appended(cpu.sse2, "SSE2 ") + Appended(cpu.sse3, "SSE3 ") + Appended(cpu.sse41, "SSE41 ") +
      Appended(cpu.avx, "AVX ")
  {
    SpacedFour(cpu.sse2, cpu.sse3, cpu.sse41, cpu.avx, "SSE2", "SSE3", "SSE41", "AVX");
    assert "SSE2" + " " == "SSE2 ";
    assert "SSE3" + " " == "SSE3 ";
    assert "SSE41" + " " == "SSE41 ";
    assert "AVX" + " " == "AVX ";
  }

  /** Four optional names, each followed by a space. */
  lemma SpacedFour(p1: bool, p2: bool, p3: bool, p4: bool, n1: string, n2: string, n3: string, n4: string)
    ensures Spaced(Listed(p1, n1) + Listed(p2, n2) + Listed(p3, n3) + Listed(p4, n4)) ==
      Appended(p1, n1 + " ") + Appended(p2, n2 + " ") + Appended(p3, n3 + " ") + Appended(p4, n4 + " ")
  {
    var a, b, c, d := Listed(p1, n1), Listed(p2, n2), Listed(p3, n3), Listed(p4, n4);
    SpacedAppend(a + b + c, d);
    SpacedAppend(a + b, c);
    SpacedAppend(a, b);
    SpacedOptional(p1, n1);
    SpacedOptional(p2, n2);
    SpacedOptional(p3, n3);
    SpacedOptional(p4, n4);
  }

  lemma SpacedOptional(present: bool, name: string)
    ensures Spaced(Listed(present, name)) == Appended(present, name + " ")
  {
    if present {
      assert [name][1..] == [];
    }
  }

  /** The appended string is the joined names, plus a trailing space unless
      AVX2 came last; it is empty when no probe answers true. */
  lemma ProbeStringJoinsNames(cpu: IsaFlags)
    ensures SupportedNames(cpu) == [] ==> ProbeString(cpu) == ""
    ensures SupportedNames(cpu) != [] ==>
      ProbeString(cpu) == Join(SupportedNames(cpu)) + (if cpu.avx2 then "" else " ")
  {
    var lower := LowerNames(cpu);
    SpacedLowerNames(cpu);
    assert ProbeString(cpu) == Spaced(lower) + Appended(cpu.avx2, "AVX2");
    if lower != [] {
      SpacedIsJoin(lower);
      if cpu.avx2 {
        JoinAppendLast(lower, "AVX2");
        assert ProbeString(cpu) == Join(SupportedNames(cpu));
      } else {
        assert SupportedNames(cpu) == lower;
        assert ProbeString(cpu) == Join(lower) + " ";
      }
    } else if cpu.avx2 {
      assert SupportedNames(cpu) == ["AVX2"];
      assert ProbeString(cpu) == "AVX2";
    } else {
      assert SupportedNames(cpu) == [];
    }
  }

  /** With no supported instruction set the string stays empty, so the
      source's `capabilities[capabilities.size() - 1]` reads index -1
      (size_t wrap-around: far past the end). */
  lemma NoFeatureLeavesEmptyString()
    ensures ProbeString(IsaFlags(false, false, false, false, false)) == ""
    ensures |ProbeString(IsaFlags(false, false, false, false, false))| - 1 == -1
  {
    ProbeStringJoinsNames(IsaFlags(false, false, false, false, false));
  }

  /** Every supported name is a word. */
  lemma SupportedNamesAreWords(cpu: IsaFlags)
    ensures forall k :: 0 <= k < |SupportedNames(cpu)| ==> IsWord(SupportedNames(cpu)[k])
  {
  }

  /** The appended string is empty exactly when no name is supported. */
  lemma JoinNonEmptyWhenNamed(cpu: IsaFlags)
    ensures ProbeString(cpu) == "" <==> SupportedNames(cpu) == []
  {
    ProbeStringJoinsNames(cpu);
    if SupportedNames(cpu) != [] {
      SupportedNamesAreWords(cpu);
      JoinNonEmpty(SupportedNames(cpu));
    }
  }

  /** Cutting one trailing space off a non-empty appended string leaves the
      joined names. */
  lemma TrimmedIsJoin(cpu: IsaFlags, trimmed: string)
    requires ProbeString(cpu) != ""
    requires var s := ProbeString(cpu);
      trimmed == if s[|s| - 1] == ' ' then s[..|s| - 1] else s
    ensures trimmed == Join(SupportedNames(cpu))
  {
    var names := SupportedNames(cpu);
    ProbeStringJoinsNames(cpu);
    SupportedNamesAreWords(cpu);
    JoinEndsInWord(names);
    if !cpu.avx2 {
      assert (Join(names) + " ")[..|Join(names)|] == Join(names);
    }
  }

  /** The appends of device_cpu_capabilities. */
  method AppendProbes(cpu: IsaFlags) returns (capabilities: string)
    ensures capabilities == ProbeString(cpu)
  {
    capabilities := "";
    ghost var sse2, sse3, sse41, avx, avx2 :=
      Appended(cpu.sse2, "SSE2 "), Appended(cpu.sse3, "SSE3 "), Appended(cpu.sse41, "SSE41 "),
      Appended(cpu.avx, "AVX "), Appended(cpu.avx2, "AVX2");
    if cpu.sse2 { capabilities := capabilities + "SSE2 "; }
    assert capabilities == sse2;
    if cpu.sse3 { capabilities := capabilities + "SSE3 "; }
    assert capabilities == sse2 + sse3;
    if cpu.sse41 { capabilities := capabilities + "SSE41 "; }
    assert capabilities == sse2 + sse3 + sse41;
    if cpu.avx { capabilities := capabilities + "AVX "; }
    assert capabilities == sse2 + sse3 + sse41 + avx;
    if cpu.avx2 { capabilities := capabilities + "AVX2"; }
  }

  /** device_cpu_capabilities as written: the last character is inspected
      even when the string is empty. That read is undefined, modelled as
      None; otherwise the trailing space is cut. */
  method DeviceCpuCapabilitiesAsWritten(cpu: IsaFlags) returns (r: Option<string>)
    ensures r.None? <==> SupportedNames(cpu) == []
    ensures r.Some? ==> r.value == Join(SupportedNames(cpu))
  {
    var capabilities := AppendProbes(cpu);
    ProbeStringJoinsNames(cpu);
    if |capabilities| == 0 {
      // capabilities[capabilities.size() - 1] on an empty string
      JoinNonEmptyWhenNamed(cpu);
      return None;
    }
    if capabilities[|capabilities| - 1] == ' ' {
      capabilities := capabilities[..|capabilities| - 1];
    }
    TrimmedIsJoin(cpu, capabilities);
    r := Some(capabilities);
  }

  /** device_cpu_capabilities with the emptiness test the last-character read
      needs: the supported names, in order, single-space separated, with no
      trailing space; each name is present exactly when its probe is true. */
  method DeviceCpuCapabilities(cpu: IsaFlags) returns (r: string)
    ensures r == Join(SupportedNames(cpu))
    ensures Words(r) == SupportedNames(cpu)
    ensures forall t :: t != Default ==> (CapabilityName(t) in Words(r) <==> Has(cpu, t))
    ensures r == "" || (r[0] != ' ' && r[|r| - 1] != ' ')
    ensures r == "" <==> SupportedNames(cpu) == []
  {
    var capabilities := AppendProbes(cpu);
    ProbeStringJoinsNames(cpu);
    if |capabilities| > 0 && capabilities[|capabilities| - 1] == ' ' {
      capabilities := capabilities[..|capabilities| - 1];
    }
    r := capabilities;
    var names := SupportedNames(cpu);
    SupportedNamesAreWords(cpu);
    WordsJoin(names);
    JoinNonEmptyWhenNamed(cpu);
    if names != [] {
      TrimmedIsJoin(cpu, capabilities);
      JoinNonEmpty(names);
      JoinEndsInWord(names);
    }
    forall t | t != Default
      ensures CapabilityName(t) in Words(r) <==> Has(cpu, t)
    {
      SupportedNamesExact(cpu, t);
    }
  }
}
