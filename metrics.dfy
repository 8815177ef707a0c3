/**
 * Metrics: StatsD-style counters, gauges and timings. A packet is
 * `key:value|c`, `key:value|g` or `key:value|ms`, a timing optionally followed by
 * `@rate`; a Batch joins packets, each followed by a newline, and hands the whole
 * text on as one packet. Nothing is queued or sent while collection is disabled.
 *
 * Values are longs written in decimal. A sample rate is given in ten-thousandths,
 * the precision with which the packet writes it. The background sender's loop is
 * modelled by one iteration at a time, and the UDP client by the datagrams it is
 * handed.
 */
module Metrics {
  import opened Wrappers
  import opened Text

  /** System.Int64. */
  type Long = x: int | -0x8000_0000_0000_0000 <= x < 0x8000_0000_0000_0000

  /** System.Int32. */
  predicate IsInt32(x: int) {
    -0x8000_0000 <= x < 0x8000_0000
  }

  // Decimal text

  predicate IsDigit(c: char) {
    '0' <= c <= '9'
  }

  predicate AllDigits(s: string) {
    forall i :: 0 <= i < |s| ==> IsDigit(s[i])
  }

  function DigitChar(d: nat): char
    requires d < 10
  {
    ['0', '1', '2', '3', '4', '5', '6', '7', '8', '9'][d]
  }

  function DigitValue(c: char): nat
    requires IsDigit(c)
  {
    (c as int) - ('0' as int)
  }

  /** The decimal digits of n, without leading zeros. */
  function NatToString(n: nat): (s: string)
    ensures |s| > 0 && AllDigits(s)
  {
    if n < 10 then [DigitChar(n)] else NatToString(n / 10) + [DigitChar(n % 10)]
  }

  /** The number a run of digits stands for. */
  function ParseNat(s: string): nat
    requires AllDigits(s)
  {
    if s == [] then 0 else ParseNat(s[..|s| - 1]) * 10 + DigitValue(s[|s| - 1])
  }

  lemma {:induction false} ParseNatToString(n: nat)
    ensures ParseNat(NatToString(n)) == n
  {
    if n >= 10 {
      var s := NatToString(n);
      assert s[..|s| - 1] == NatToString(n / 10);
      ParseNatToString(n / 10);
    }
  }

  /** Long.ToString("F0") in the invariant culture: the decimal digits, after a minus sign when negative. */
  function LongToString(x: int): (s: string)
    ensures x >= 0 ==> AllDigits(s)
    ensures x < 0 ==> |s| > 1 && s[0] == '-' && AllDigits(s[1..])
  {
    if x < 0 then "-" + NatToString(-x) else NatToString(x)
  }

  /** Decimal text with an optional sign, the inverse of LongToString. */
  function ParseInteger(s: string): Option<int> {
    if |s| > 1 && (s[0] == '-' || s[0] == '+') && AllDigits(s[1..]) then
      var n: int := ParseNat(s[1..]);
      Some(if s[0] == '-' then -n else n)
    else if |s| > 0 && AllDigits(s) then Some(ParseNat(s))
    else None
  }

  lemma ParseLongToString(x: int)
    ensures ParseInteger(LongToString(x)) == Some(x)
  {
    var s := LongToString(x);
    if x < 0 {
      assert s[1..] == NatToString(-x);
      ParseNatToString(-x);
    } else {
      ParseNatToString(x);
      assert s[0] != '-' && s[0] != '+';
    }
  }

  function Zeros(k: nat): (s: string)
    ensures |s| == k && AllDigits(s)
  {
    if k == 0 then [] else Zeros(k - 1) + ['0']
  }

  lemma {:induction false} ParseZerosThen(k: nat, s: string)
    requires AllDigits(s)
    ensures AllDigits(Zeros(k) + s) && ParseNat(Zeros(k) + s) == ParseNat(s)
    decreases |s|, k
  {
    if s == [] {
      assert Zeros(k) + s == Zeros(k);
      if k > 0 {
        assert Zeros(k)[..k - 1] == Zeros(k - 1);
        ParseZerosThen(k - 1, []);
        assert Zeros(k - 1) + [] == Zeros(k - 1);
      }
    } else {
      var t := Zeros(k) + s;
      assert t[..|t| - 1] == Zeros(k) + s[..|s| - 1];
      ParseZerosThen(k, s[..|s| - 1]);
    }
  }

  lemma {:induction false} NatToStringShort(n: nat, k: nat)
    requires k > 0 && n < Pow10(k)
    ensures |NatToString(n)| <= k
    decreases k
  {
    if n >= 10 {
      assert k > 1;
      NatToStringShort(n / 10, k - 1);
    }
  }

  function Pow10(k: nat): (p: nat)
    ensures p > 0
  {
    if k == 0 then 1 else 10 * Pow10(k - 1)
  }

  /** Four digits with leading zeros: the fractional part of "F4". */
  function Pad4(f: nat): (s: string)
    requires f < 10000
    ensures |s| == 4 && AllDigits(s) && ParseNat(s) == f
  {
    assert Pow10(4) == 10 * Pow10(3) && Pow10(3) == 1000 by {
      assert Pow10(1) == 10 && Pow10(2) == 100;
    }
    NatToStringShort(f, 4);
    ParseZerosThen(4 - |NatToString(f)|, NatToString(f));
    ParseNatToString(f);
    Zeros(4 - |NatToString(f)|) + NatToString(f)
  }

  /** Double.ToString("F4") of a rate given in ten-thousandths, with the invariant culture's '.' separator. */
  function FormatRate(rate: nat): string {
    NatToString(rate / 10000) + "." + Pad4(rate % 10000)
  }

  // Packets

  /** The first position of `c` in `s`, or |s| when there is none. */
  function IndexOf(s: string, c: char): (r: nat)
    ensures r <= |s|
    ensures r < |s| ==> s[r] == c
    ensures forall i :: 0 <= i < r ==> s[i] != c
  {
    if s == [] then 0 else if s[0] == c then 0 else 1 + IndexOf(s[1..], c)
  }

  /** Text with a first occurrence of `c` splits there into what comes before and after it. */
  lemma SplitAt(a: string, c: char, b: string)
    requires c !in a
    ensures var s := a + [c] + b; IndexOf(s, c) == |a| && s[..|a|] == a && s[|a| + 1..] == b
  {
    var s := a + [c] + b;
    assert s[|a|] == c;
    assert s[..|a|] == a && s[|a| + 1..] == b;
  }

  lemma DigitsAreNot(s: string, c: char)
    requires AllDigits(s) && !IsDigit(c)
    ensures c !in s
  {
  }

  function ParseRate(s: string): Option<nat> {
    var d := IndexOf(s, '.');
    if d == 0 || d == |s| || !AllDigits(s[..d]) || !AllDigits(s[d + 1..]) || |s[d + 1..]| != 4 then None
    else Some(ParseNat(s[..d]) * 10000 + ParseNat(s[d + 1..]))
  }

  lemma ParseFormatRate(rate: nat)
    ensures ParseRate(FormatRate(rate)) == Some(rate)
  {
    var w := NatToString(rate / 10000);
    DigitsAreNot(w, '.');
    assert FormatRate(rate) == w + ['.'] + Pad4(rate % 10000);
    SplitAt(w, '.', Pad4(rate % 10000));
    ParseNatToString(rate / 10000);
  }

  /** What a packet records: a timing with its sample rate, a gauge or a counter. */
  datatype Kind = Timing(rate: nat) | Gauge | Counter

  /** A sample rate of 1. */
  const FullRate: nat := 10000

  datatype Stat = Stat(key: string, value: int, kind: Kind)

  function Suffix(k: Kind): string {
    match k
    case Timing(rate) => if rate == FullRate then "ms" else "ms@" + FormatRate(rate)
    case Gauge => "g"
    case Counter => "c"
  }

  /** The packet text of a stat: key, colon, the value in decimal, bar and the kind's suffix. */
  function Packet(s: Stat): string {
    s.key + ":" + LongToString(s.value) + "|" + Suffix(s.kind)
  }

  function ParseSuffix(s: string): Option<Kind> {
    if s == "g" then Some(Gauge)
    else if s == "c" then Some(Counter)
    else if s == "ms" then Some(Timing(FullRate))
    else if |s| > 3 && s[..3] == "ms@" then
      var r := ParseRate(s[3..]);
      if r.Some? && r.value != FullRate then Some(Timing(r.value)) else None
    else None
  }

  /** Reading a packet back: the key up to the first colon, the value up to the next bar, then the kind. */
  function ParsePacket(line: string): Option<Stat> {
    var i := IndexOf(line, ':');
    if i == |line| then None
    else
      var rest := line[i + 1..];
      var j := IndexOf(rest, '|');
      if j == |rest| then None
      else
        var v := ParseInteger(rest[..j]);
        var k := ParseSuffix(rest[j + 1..]);
        if v.None? || k.None? then None else Some(Stat(line[..i], v.value, k.value))
  }

  /** A key the packet format can carry: no colon, bar or newline in it. */
  predicate PlainKey(key: string) {
    ':' !in key && '|' !in key && '\n' !in key
  }

  lemma ParseSuffixOf(k: Kind)
    ensures ParseSuffix(Suffix(k)) == Some(k)
  {
    if k.Timing? && k.rate != FullRate {
      var s := Suffix(k);
      assert s[..3] == "ms@" && s[3..] == FormatRate(k.rate);
      ParseFormatRate(k.rate);
    }
  }

  /** No character other than a digit or the minus sign appears in a long's text. */
  lemma LongToStringLacks(x: int, c: char)
    requires !IsDigit(c) && c != '-'
    ensures c !in LongToString(x)
  {
    var v := LongToString(x);
    if x < 0 {
      DigitsAreNot(v[1..], c);
      assert v == [v[0]] + v[1..];
    } else {
      DigitsAreNot(v, c);
    }
  }

  /** The shape of ParsePacket: key before the first colon, value before the next bar, suffix after it. */
  lemma ParsePacketParts(key: string, v: string, suffix: string)
    requires ':' !in key && '|' !in v
    ensures ParsePacket(key + ":" + v + "|" + suffix) ==
      if ParseInteger(v).None? || ParseSuffix(suffix).None? then None
      else Some(Stat(key, ParseInteger(v).value, ParseSuffix(suffix).value))
  {
    var rest := v + "|" + suffix;
    assert key + ":" + v + "|" + suffix == key + [':'] + rest;
    SplitAt(key, ':', rest);
    assert rest == v + ['|'] + suffix;
    SplitAt(v, '|', suffix);
  }

  /** Every packet of a stat with a plain key reads back as that stat. */
  lemma ParsePacketOf(s: Stat)
    requires PlainKey(s.key)
    ensures ParsePacket(Packet(s)) == Some(s)
  {
    LongToStringLacks(s.value, '|');
    ParseLongToString(s.value);
    ParseSuffixOf(s.kind);
    ParsePacketParts(s.key, LongToString(s.value), Suffix(s.kind));
  }

  lemma SuffixLacksNewline(k: Kind)
    ensures '\n' !in Suffix(k)
  {
    if k.Timing? && k.rate != FullRate {
      var w := NatToString(k.rate / 10000);
      DigitsAreNot(w, '\n');
      DigitsAreNot(Pad4(k.rate % 10000), '\n');
      assert Suffix(k) == "ms@" + w + "." + Pad4(k.rate % 10000);
    }
  }

  /** A packet has no newline unless its key has one. */
  lemma PacketHasNoNewline(s: Stat)
    requires PlainKey(s.key)
    ensures '\n' !in Packet(s)
  {
    LongToStringLacks(s.value, '\n');
    SuffixLacksNewline(s.kind);
  }

  // Batches

  /** Lines of text, each followed by a newline. */
  function JoinLines(ps: seq<string>): string
    decreases |ps|
  {
    if ps == [] then "" else JoinLines(ps[..|ps| - 1]) + ps[|ps| - 1] + "\n"
  }

  function Packets(stats: seq<Stat>): seq<string> {
    seq(|stats|, i requires 0 <= i < |stats| => Packet(stats[i]))
  }

  /** The text of a batch: each stat's packet followed by a newline, in call order. */
  function Joined(stats: seq<Stat>): string {
    JoinLines(Packets(stats))
  }

  lemma JoinedSnoc(stats: seq<Stat>, s: Stat)
    ensures Joined(stats + [s]) == Joined(stats) + Packet(s) + "\n"
  {
    var ps := Packets(stats + [s]);
    assert ps[..|ps| - 1] == Packets(stats);
  }

  /** Splitting text at newlines, as a receiver of a batch packet reads it line by line. */
  function Lines(s: string): seq<string>
    decreases |s|
  {
    var i := IndexOf(s, '\n');
    if i == |s| then (if s == [] then [] else [s]) else [s[..i]] + Lines(s[i + 1..])
  }

  /** JoinLines with the first line split off at the front. */
  lemma {:induction false} JoinLinesFront(ps: seq<string>)
    requires ps != []
    ensures JoinLines(ps) == ps[0] + "\n" + JoinLines(ps[1..])
    decreases |ps|
  {
    if |ps| > 1 {
      var init := ps[..|ps| - 1];
      JoinLinesFront(init);
      assert init[1..] == ps[1..][..|ps[1..]| - 1];
    } else {
      assert ps[1..] == [] && ps[..0] == [];
    }
  }

  /** Lines undoes JoinLines when no line holds a newline. */
  lemma {:induction false} LinesOfJoinLines(ps: seq<string>)
    requires forall i :: 0 <= i < |ps| ==> '\n' !in ps[i]
    ensures Lines(JoinLines(ps)) == ps
    decreases |ps|
  {
    if ps != [] {
      JoinLinesFront(ps);
      var rest := JoinLines(ps[1..]);
      assert JoinLines(ps) == ps[0] + ['\n'] + rest;
      SplitAt(ps[0], '\n', rest);
      LinesOfJoinLines(ps[1..]);
    }
  }

  /** A batch of stats with plain keys reads back, line by line, as those stats in call order. */
  lemma BatchReadsBack(stats: seq<Stat>)
    requires forall i :: 0 <= i < |stats| ==> PlainKey(stats[i].key)
    ensures |Lines(Joined(stats))| == |stats|
    ensures forall i :: 0 <= i < |stats| ==> ParsePacket(Lines(Joined(stats))[i]) == Some(stats[i])
  {
    var ps := Packets(stats);
    forall i | 0 <= i < |ps| ensures '\n' !in ps[i] {
      PacketHasNoNewline(stats[i]);
    }
    LinesOfJoinLines(ps);
    forall i | 0 <= i < |stats| ensures ParsePacket(ps[i]) == Some(stats[i]) {
      ParsePacketOf(stats[i]);
    }
  }

  // Encoding and configuration

  /** Encoding.ASCII of one character: a character outside ASCII becomes '?'. */
  function AsciiByte(c: char): bv8 {
    if (c as int) < 128 then (c as int) as bv8 else 63
  }

  function ByteChar(b: bv8): char {
    (b as int) as char
  }

  lemma AsciiCharRoundTrip(c: char)
    ensures ByteChar(AsciiByte(c)) == if (c as int) < 128 then c else '?'
  {
  }

  /** Encoding.ASCII.GetBytes. */
  function AsciiBytes(s: string): (b: seq<bv8>)
    ensures |b| == |s|
  {
    seq(|s|, i requires 0 <= i < |s| => AsciiByte(s[i]))
  }

  function AsciiText(b: seq<bv8>): (s: string)
    ensures |s| == |b|
  {
    seq(|b|, i requires 0 <= i < |b| => ByteChar(b[i]))
  }

  /** ASCII text survives the encoding; anything else comes back with '?' in place of each non-ASCII character. */
  lemma AsciiRoundTrip(s: string)
    ensures forall i :: 0 <= i < |s| ==>
      AsciiText(AsciiBytes(s))[i] == if (s[i] as int) < 128 then s[i] else '?'
    ensures (forall i :: 0 <= i < |s| ==> (s[i] as int) < 128) ==> AsciiText(AsciiBytes(s)) == s
  {
    forall i | 0 <= i < |s| ensures AsciiText(AsciiBytes(s))[i] == if (s[i] as int) < 128 then s[i] else '?' {
      AsciiCharRoundTrip(s[i]);
    }
  }

  /** The white space number parsing skips: U+0009 to U+000D and the space. */
  predicate IsNumberWhite(c: char) {
    ('\t' <= c <= '\r') || c == ' '
  }

  /** Boolean.TryParse's trimming: white space and NUL characters at either end. */
  predicate IsWhiteOrNull(c: char) {
    IsWhiteSpace(c) || c == '\0'
  }

  /** Number parsing accepts trailing NUL characters after the trailing white space. */
  function DropTrailingNulls(s: string): (r: string)
    ensures |r| <= |s| && r == s[..|r|] && forall k :: |r| <= k < |s| ==> s[k] == '\0'
    ensures r != [] ==> r[|r| - 1] != '\0'
  {
    if |s| > 0 && s[|s| - 1] == '\0' then DropTrailingNulls(s[..|s| - 1]) else s
  }

  function LowerAscii(s: string): string {
    seq(|s|, i requires 0 <= i < |s| => if 'A' <= s[i] <= 'Z' then ((s[i] as int) + 32) as char else s[i])
  }

  /**
   * bool.TryParse: "true" or "false" in any case, with white space and NUL characters
   * around allowed; anything else, null included, fails.
   */
  function TryParseBool(s: Option<string>): (r: Option<bool>)
    ensures r.Some? ==> s.Some?
  {
    if s.None? then None
    else if LowerAscii(Trim(s.value, IsWhiteOrNull)) == "true" then Some(true)
    else if LowerAscii(Trim(s.value, IsWhiteOrNull)) == "false" then Some(false)
    else None
  }

  /** "true" or "false" in any case, padded with white space and NULs, parses to its value. */
  lemma TryParseBoolPadded(pre: string, word: string, post: string)
    requires forall k :: 0 <= k < |pre| ==> IsWhiteOrNull(pre[k])
    requires forall k :: 0 <= k < |post| ==> IsWhiteOrNull(post[k])
    requires LowerAscii(word) == "true" || LowerAscii(word) == "false"
    ensures TryParseBool(Some(pre + word + post)) == Some(LowerAscii(word) == "true")
  {
    assert |word| == |LowerAscii(word)|;
    assert LowerAscii(word)[0] == 't' || LowerAscii(word)[0] == 'f';
    assert LowerAscii(word)[|word| - 1] == 'e';
    TrimPadded(pre, word, post, IsWhiteOrNull);
  }

  /**
   * int.TryParse: a signed decimal in the Int32 range, with number white space around
   * it and NUL characters after it allowed.
   */
  function TryParseInt32(s: Option<string>): (r: Option<int>)
    ensures r.Some? ==> IsInt32(r.value)
  {
    if s.None? then None
    else
      var v := ParseInteger(Trim(DropTrailingNulls(s.value), IsNumberWhite));
      if v.Some? && IsInt32(v.value) then v else None
  }

  /** k NUL characters. */
  function Nulls(k: nat): (s: string)
    ensures |s| == k && forall i :: 0 <= i < k ==> s[i] == '\0'
  {
    seq(k, _ => '\0')
  }

  /** Trailing NULs after text that does not end in one are exactly what is dropped. */
  lemma {:induction false} DropNullsPadded(s: string, k: nat)
    requires s == [] || s[|s| - 1] != '\0'
    ensures DropTrailingNulls(s + Nulls(k)) == s
    decreases k
  {
    if k > 0 {
      var t := s + Nulls(k);
      assert t[|t| - 1] == '\0';
      assert t[..|t| - 1] == s + Nulls(k - 1);
      DropNullsPadded(s, k - 1);
    } else {
      assert s + Nulls(0) == s;
    }
  }

  /**
   * Every Int32 written in decimal parses back, whatever number white space surrounds
   * it and however many NUL characters follow.
   */
  lemma TryParseInt32Padded(pre: string, x: int, post: string, k: nat)
    requires IsInt32(x)
    requires forall i :: 0 <= i < |pre| ==> IsNumberWhite(pre[i])
    requires forall i :: 0 <= i < |post| ==> IsNumberWhite(post[i])
    ensures TryParseInt32(Some(pre + LongToString(x) + post + Nulls(k))) == Some(x)
  {
    var w := LongToString(x);
    var s := pre + w + post;
    assert s[|s| - 1] == if post == [] then w[|w| - 1] else post[|post| - 1];
    DropNullsPadded(s, k);
    assert !IsNumberWhite(w[0]) && !IsNumberWhite(w[|w| - 1]);
    TrimPadded(pre, w, post, IsNumberWhite);
    ParseLongToString(x);
  }

  datatype Settings = Settings(enabled: bool, host: string, port: int)

  const DefaultHost: string := "127.0.0.1"
  const DefaultPort: int := 8125

  function Setting(config: map<string, string>, key: string): Option<string> {
    if key in config then Some(config[key]) else None
  }

  /** The host: the configured one unless it is missing or white space. */
  function ConfiguredHost(config: map<string, string>): string {
    var host := Setting(config, "metrics_host");
    if host.None? || IsNullOrWhiteSpace(host.value) then DefaultHost else host.value
  }

  /**
   * The static constructor as written: the port starts at 8125, but the failing
   * int.TryParse of a missing or malformed setting writes 0 over it. (A failing
   * bool.TryParse likewise writes false, which is the default anyway.)
   */
  function SettingsAsWritten(config: map<string, string>): (r: Settings)
    ensures r.port == OrElse(TryParseInt32(Setting(config, "metrics_port")), 0)
  {
    Settings(OrElse(TryParseBool(Setting(config, "metrics_enabled")), false), ConfiguredHost(config),
             OrElse(TryParseInt32(Setting(config, "metrics_port")), 0))
  }

  /** A configuration without a port setting loses the default port as written. */
  lemma MissingPortIsZero()
    ensures SettingsAsWritten(map[]).port == 0
    ensures SettingsAsWritten(map[]).host == DefaultHost && !SettingsAsWritten(map[]).enabled
  {
  }

  /** The settings as intended: each value from its setting, the default when it is missing or malformed. */
  function ConfiguredSettings(config: map<string, string>): (r: Settings)
    ensures IsInt32(r.port)
    ensures TryParseInt32(Setting(config, "metrics_port")).None? ==> r.port == DefaultPort
    ensures TryParseInt32(Setting(config, "metrics_port")).Some? ==> r.port == TryParseInt32(Setting(config, "metrics_port")).value
    ensures r.enabled ==> "metrics_enabled" in config
  {
    Settings(OrElse(TryParseBool(Setting(config, "metrics_enabled")), false), ConfiguredHost(config),
             OrElse(TryParseInt32(Setting(config, "metrics_port")), DefaultPort))
  }

  /** The two agree except on the port of a configuration whose port does not parse. */
  lemma SettingsDifferOnlyInPort(config: map<string, string>)
    ensures SettingsAsWritten(config).enabled == ConfiguredSettings(config).enabled
    ensures SettingsAsWritten(config).host == ConfiguredSettings(config).host
    ensures SettingsAsWritten(config).port != ConfiguredSettings(config).port <==>
      TryParseInt32(Setting(config, "metrics_port")).None?
    ensures ConfiguredSettings(map[]).port == DefaultPort
  {
  }

  /** A configured port written as an Int32 reaches the settings, as written and as intended. */
  lemma ConfiguredPortIsUsed(config: map<string, string>, pre: string, x: int, post: string)
    requires IsInt32(x)
    requires forall i :: 0 <= i < |pre| ==> IsNumberWhite(pre[i])
    requires forall i :: 0 <= i < |post| ==> IsNumberWhite(post[i])
    requires "metrics_port" in config && config["metrics_port"] == pre + LongToString(x) + post
    ensures SettingsAsWritten(config).port == x && ConfiguredSettings(config).port == x
  {
    assert pre + LongToString(x) + post + Nulls(0) == config["metrics_port"];
    TryParseInt32Padded(pre, x, post, 0);
  }

  class Metrics {
    /** MetricsCollectionEnabled. */
    const enabled: bool
    /** Where the UDP client sends. */
    const host: string
    const port: int
    /** AsyncMetricAppender's queue of packets waiting for the sender. */
    var pending: seq<string>
    /** The datagrams handed to the UDP client, in order. */
    var sent: seq<seq<bv8>>

    /**
     * The client the static constructor builds as Default, with the enabled flag it sets:
     * built from SettingsAsWritten as the code stands, or from ConfiguredSettings as intended.
     */
    constructor (st: Settings)
      ensures enabled == st.enabled && host == st.host && port == st.port
      ensures pending == [] && sent == []
    {
      enabled := st.enabled;
      host := st.host;
      port := st.port;
      pending := [];
      sent := [];
    }

    /** Append: queue the packet for the sender, when collection is enabled. */
    method Append(packet: string)
      modifies this
      ensures pending == old(pending) + (if enabled then [packet] else [])
      ensures sent == old(sent)
    {
      if !enabled {
        return;
      }
      pending := pending + [packet];
    }

    /** AddTiming: one timing packet, without a newline; `rate` is the sample rate in ten-thousandths. */
    method AddTiming(key: string, time: Long, rate: nat)
      modifies this
      ensures pending == old(pending) + (if enabled then [Packet(Stat(key, time, Timing(rate)))] else [])
      ensures sent == old(sent)
    {
      if !enabled {
        return;
      }
      var packet := key + ":" + LongToString(time) + "|ms";
      if rate != FullRate {
        packet := packet + "@" + FormatRate(rate);
        assert packet == key + ":" + LongToString(time) + "|" + ("ms@" + FormatRate(rate));
      } else {
        assert packet == key + ":" + LongToString(time) + "|" + "ms";
      }
      Append(packet);
    }

    method SetGauge(key: string, value: Long)
      modifies this
      ensures pending == old(pending) + (if enabled then [Packet(Stat(key, value, Gauge))] else [])
      ensures sent == old(sent)
    {
      if !enabled {
        return;
      }
      var packet := key + ":" + LongToString(value) + "|g";
      assert packet == key + ":" + LongToString(value) + "|" + "g";
      Append(packet);
    }

    method Increment(key: string, value: Long)
      modifies this
      ensures pending == old(pending) + (if enabled then [Packet(Stat(key, value, Counter))] else [])
      ensures sent == old(sent)
    {
      if !enabled {
        return;
      }
      var packet := key + ":" + LongToString(value) + "|c";
      assert packet == key + ":" + LongToString(value) + "|" + "c";
      Append(packet);
    }

    /** SendPacket: the packet's ASCII bytes go out as one datagram, when collection is enabled. */
    method SendPacket(packet: string)
      modifies this
      ensures sent == old(sent) + (if enabled then [AsciiBytes(packet)] else [])
      ensures pending == old(pending)
    {
      if !enabled {
        return;
      }
      sent := sent + [AsciiBytes(packet)];
    }

    /** One iteration of the background sender: the oldest queued packet is sent, if there is one. */
    method SendNext()
      modifies this
      ensures old(pending) == [] ==> pending == [] && sent == old(sent)
      ensures old(pending) != [] ==>
        pending == old(pending)[1..] && sent == old(sent) + (if enabled then [AsciiBytes(old(pending)[0])] else [])
    {
      if pending == [] {
        return;
      }
      var packet := pending[0];
      pending := pending[1..];
      SendPacket(packet);
    }

    method SendBatch() returns (b: Batch)
      ensures fresh(b) && b.metrics == this && b.packet == "" && b.stats == []
    {
      b := new Batch(this);
    }
  }

  class Batch {
    const metrics: Metrics
    /** The StringBuilder's contents. */
    var packet: string
    /** The stats added so far, in call order. */
    ghost var stats: seq<Stat>

    ghost predicate Valid()
      reads this
    {
      packet == Joined(stats)
    }

    constructor (metrics: Metrics)
      ensures this.metrics == metrics && packet == "" && stats == [] && Valid()
    {
      this.metrics := metrics;
      packet := "";
      stats := [];
    }

    /** Adds one line for the stat; a batch builds whether or not collection is enabled. */
    method Add(s: Stat) returns (b: Batch)
      requires Valid()
      modifies this
      ensures b == this && stats == old(stats) + [s] && Valid()
      ensures packet == old(packet) + Packet(s) + "\n"
    {
      JoinedSnoc(stats, s);
      packet := packet + Packet(s) + "\n";
      stats := stats + [s];
      return this;
    }

    /** AddTiming; `rate` is the sample rate in ten-thousandths. */
    method AddTiming(key: string, time: Long, rate: nat) returns (b: Batch)
      requires Valid()
      modifies this
      ensures b == this && stats == old(stats) + [Stat(key, time, Timing(rate))] && Valid()
    {
      b := Add(Stat(key, time, Timing(rate)));
    }

    method SetGauge(key: string, value: Long) returns (b: Batch)
      requires Valid()
      modifies this
      ensures b == this && stats == old(stats) + [Stat(key, value, Gauge)] && Valid()
    {
      b := Add(Stat(key, value, Gauge));
    }

    method Increment(key: string, value: Long) returns (b: Batch)
      requires Valid()
      modifies this
      ensures b == this && stats == old(stats) + [Stat(key, value, Counter)] && Valid()
    {
      b := Add(Stat(key, value, Counter));
    }

    /** Send: the whole text is queued as one packet, when collection is enabled. */
    method Send()
      requires Valid()
      modifies metrics
      ensures metrics.pending == old(metrics.pending) + (if metrics.enabled then [Joined(stats)] else [])
      ensures metrics.sent == old(metrics.sent)
    {
      metrics.Append(packet);
    }
  }
}
