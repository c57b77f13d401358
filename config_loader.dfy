/** Loading `key=value` lines into a configuration, then normalising it.
    The file arrives as its sequence of lines (None when it cannot be
    opened) and integer parsing is the partial function `parseInt`. */
module ConfigLoading {
  import opened Requests
  import opened Configs

  /** The white-space test of the C locale: space, tab, line feed,
      vertical tab, form feed and carriage return. */
  predicate IsSpace(c: char) {
    c == ' ' || ('\t' <= c <= '\r')
  }

  /** Every character of s[i..j] is white space. */
  predicate SpacesBetween(s: string, i: nat, j: nat)
    requires i <= j <= |s|
  {
    forall m :: i <= m < j ==> IsSpace(s[m])
  }

  // ---------------------------------------------------------------
  // Trimming
  // ---------------------------------------------------------------

  /** Where the front scan stops when it starts at `i`: the first index at
      or after `i` that holds no white space, or |s|. */
  function StartOf(s: string, i: nat): (k: nat)
    requires i <= |s|
    ensures i <= k <= |s|
    ensures SpacesBetween(s, i, k)
    ensures k < |s| ==> !IsSpace(s[k])
    decreases |s| - i
  {
    if i < |s| && IsSpace(s[i]) then StartOf(s, i + 1) else i
  }

  /** Where the back scan stops when it starts at `j` and may not pass
      `lo`: the last end in [lo, j] not preceded by white space, or lo. */
  function EndOf(s: string, lo: nat, j: nat): (e: nat)
    requires lo <= j <= |s|
    ensures lo <= e <= j
    ensures SpacesBetween(s, e, j)
    ensures e > lo ==> !IsSpace(s[e - 1])
    decreases j
  {
    if j > lo && IsSpace(s[j - 1]) then EndOf(s, lo, j - 1) else j
  }

  /** `s` without white space at either end. */
  function Trimmed(s: string): (t: string)
    ensures |t| <= |s|
    ensures |t| > 0 ==> !IsSpace(t[0]) && !IsSpace(t[|t| - 1])
  {
    var start := StartOf(s, 0);
    s[start..EndOf(s, start, |s|)]
  }

  lemma {:induction false} StartOfAt(s: string, i: nat, a: nat)
    requires i <= a <= |s| && SpacesBetween(s, i, a)
    requires a < |s| ==> !IsSpace(s[a])
    ensures StartOf(s, i) == a
    decreases a - i
  {
    if i < a {
      StartOfAt(s, i + 1, a);
    }
  }

  lemma {:induction false} EndOfAt(s: string, lo: nat, j: nat, b: nat)
    requires lo <= b <= j <= |s| && SpacesBetween(s, b, j)
    requires b > lo ==> !IsSpace(s[b - 1])
    ensures EndOf(s, lo, j) == b
    decreases j - b
  {
    if b < j {
      EndOfAt(s, lo, j - 1, b);
    }
  }

  /** The trimmed text is the one piece of `s` that has only white space
      before and after it and no white space at its ends. */
  lemma TrimmedUnique(s: string, a: nat, b: nat)
    requires a <= b <= |s|
    requires SpacesBetween(s, 0, a) && SpacesBetween(s, b, |s|)
    requires a < b ==> !IsSpace(s[a]) && !IsSpace(s[b - 1])
    ensures Trimmed(s) == s[a..b]
  {
    if a < b {
      StartOfAt(s, 0, a);
      EndOfAt(s, a, |s|, b);
    } else {
      StartOfAt(s, 0, |s|);
      EndOfAt(s, |s|, |s|, |s|);
    }
  }

  /** What trimming gives: a contiguous piece s[a..b] of the input with only
      white space outside it and none at its two ends. */
  lemma TrimmedShape(s: string) returns (a: nat, b: nat)
    ensures a <= b <= |s| && Trimmed(s) == s[a..b]
    ensures SpacesBetween(s, 0, a) && SpacesBetween(s, b, |s|)
    ensures a < b ==> !IsSpace(s[a]) && !IsSpace(s[b - 1])
  {
    a := StartOf(s, 0);
    b := EndOf(s, a, |s|);
  }

  /** Trimming twice is trimming once. */
  lemma TrimmedIdempotent(s: string)
    ensures Trimmed(Trimmed(s)) == Trimmed(s)
  {
    var a, b := TrimmedShape(s);
    var t := Trimmed(s);
    if |t| > 0 {
      assert t[0] == s[a] && t[|t| - 1] == s[b - 1];
    }
    TrimmedUnique(t, 0, |t|);
    assert t[0..|t|] == t;
  }

  /** Removes the white space at both ends of `s`: first skips it from the
      front, then from the back. */
  method Trim(s: string) returns (t: string)
    ensures t == Trimmed(s)
  {
    var start := 0;
    while start < |s| && IsSpace(s[start])
      invariant 0 <= start <= |s|
      invariant SpacesBetween(s, 0, start)
    {
      start := start + 1;
    }
    var end := |s|;
    while end > start && IsSpace(s[end - 1])
      invariant start <= end <= |s|
      invariant SpacesBetween(s, end, |s|)
    {
      end := end - 1;
    }
    t := s[start..end];
    TrimmedUnique(s, start, end);
  }

  // ---------------------------------------------------------------
  // One line of the file
  // ---------------------------------------------------------------

  /** The index of the first `c` in `s`, or |s| when there is none. */
  function Find(s: string, c: char): (k: nat)
    ensures k <= |s|
    ensures k < |s| ==> s[k] == c
    ensures forall j :: 0 <= j < k ==> s[j] != c
  {
    if |s| == 0 || s[0] == c then 0 else 1 + Find(s[1..], c)
  }

  /** How the loader reads a line: blank after trimming, a `#` comment, a
      line without `=`, or a key and a value split at the first `=`, each
      trimmed. */
  datatype LineKind = Blank | Comment | NoEquals | Entry(key: string, value: string)

  function ClassifyLine(raw: string): (k: LineKind)
    ensures k.Blank? <==> Trimmed(raw) == ""
    ensures k.Comment? <==> Trimmed(raw) != "" && Trimmed(raw)[0] == '#'
    ensures k.Entry? <==> Trimmed(raw) != "" && Trimmed(raw)[0] != '#' && '=' in Trimmed(raw)
  {
    var line := Trimmed(raw);
    if |line| == 0 then Blank
    else if line[0] == '#' then Comment
    else
      var eq := Find(line, '=');
      if eq == |line| then NoEquals
      else Entry(Trimmed(line[..eq]), Trimmed(line[eq + 1..]))
  }

  /** The integer fields a line of the file may assign. */
  datatype Field =
    | TaskTimeMin | TaskTimeMax | MinQueuePerServer | MaxQueuePerServer
    | ScaleCooldownN | BlockedChancePercent | LogVerboseDrops | LogCheckpointInterval

  function KeyName(f: Field): string {
    match f
    case TaskTimeMin => "taskTimeMin"
    case TaskTimeMax => "taskTimeMax"
    case MinQueuePerServer => "minQueuePerServer"
    case MaxQueuePerServer => "maxQueuePerServer"
    case ScaleCooldownN => "scaleCooldownN"
    case BlockedChancePercent => "blockedChancePercent"
    case LogVerboseDrops => "logVerboseDrops"
    case LogCheckpointInterval => "logCheckpointInterval"
  }

  /** The integer field a key names. `newRequestProb` is a known key too,
      but its field is not part of this model, so it selects none. */
  function FieldOfKey(key: string): (f: Option<Field>)
    ensures f.Some? ==> KeyName(f.value) == key
  {
    if key == "taskTimeMin" then Some(TaskTimeMin)
    else if key == "taskTimeMax" then Some(TaskTimeMax)
    else if key == "minQueuePerServer" then Some(MinQueuePerServer)
    else if key == "maxQueuePerServer" then Some(MaxQueuePerServer)
    else if key == "scaleCooldownN" then Some(ScaleCooldownN)
    else if key == "blockedChancePercent" then Some(BlockedChancePercent)
    else if key == "logVerboseDrops" then Some(LogVerboseDrops)
    else if key == "logCheckpointInterval" then Some(LogCheckpointInterval)
    else None
  }

  /** Every field has exactly one key. */
  lemma KeyRoundTrip(f: Field)
    ensures FieldOfKey(KeyName(f)) == Some(f)
  {
  }

  function Get(c: Config, f: Field): int {
    match f
    case TaskTimeMin => c.taskTimeMin
    case TaskTimeMax => c.taskTimeMax
    case MinQueuePerServer => c.minQueuePerServer
    case MaxQueuePerServer => c.maxQueuePerServer
    case ScaleCooldownN => c.scaleCooldownN
    case BlockedChancePercent => c.blockedChancePercent
    case LogVerboseDrops => c.logVerboseDrops
    case LogCheckpointInterval => c.logCheckpointInterval
  }

  /** The fields no line of the file can change. */
  predicate SameProtected(a: Config, b: Config) {
    && a.numServers == b.numServers
    && a.totalCycles == b.totalCycles
    && a.initialQueueMultiplier == b.initialQueueMultiplier
    && a.useColor == b.useColor
  }

  /** `c` with field `f` overwritten by `v`. */
  function Set(c: Config, f: Field, v: int): (r: Config)
    ensures Get(r, f) == v
    ensures forall g :: g != f ==> Get(r, g) == Get(c, g)
    ensures SameProtected(r, c)
  {
    match f
    case TaskTimeMin => c.(taskTimeMin := v)
    case TaskTimeMax => c.(taskTimeMax := v)
    case MinQueuePerServer => c.(minQueuePerServer := v)
    case MaxQueuePerServer => c.(maxQueuePerServer := v)
    case ScaleCooldownN => c.(scaleCooldownN := v)
    case BlockedChancePercent => c.(blockedChancePercent := v)
    case LogVerboseDrops => c.(logVerboseDrops := v)
    case LogCheckpointInterval => c.(logCheckpointInterval := v)
  }

  /** A `key=value` entry: an assignable key whose value parses sets its
      field; an unknown key or a value that does not parse changes nothing. */
  function ApplyEntry(c: Config, key: string, val: string, parseInt: string -> Option<int>): (r: Config)
    ensures FieldOfKey(key).None? || parseInt(val).None? ==> r == c
    ensures FieldOfKey(key).Some? && parseInt(val).Some? ==>
      r == Set(c, FieldOfKey(key).value, parseInt(val).value)
  {
    match FieldOfKey(key)
    case None => c
    case Some(f) =>
      match parseInt(val)
      case None => c
      case Some(v) => Set(c, f, v)
  }

  /** One line of the file: only an entry can change the configuration. */
  function ApplyLine(c: Config, raw: string, parseInt: string -> Option<int>): (r: Config)
    ensures !ClassifyLine(raw).Entry? ==> r == c
    ensures SameProtected(r, c)
  {
    match ClassifyLine(raw)
    case Entry(key, val) => ApplyEntry(c, key, val, parseInt)
    case _ => c
  }

  /** The lines of a file applied in order; no line changes numServers,
      totalCycles, initialQueueMultiplier or useColor. */
  function ApplyLines(c: Config, lines: seq<string>, parseInt: string -> Option<int>): (r: Config)
    ensures SameProtected(r, c)
    decreases |lines|
  {
    if |lines| == 0 then c
    else ApplyLine(ApplyLines(c, lines[..|lines| - 1], parseInt), lines[|lines| - 1], parseInt)
  }

  lemma ApplyLinesStep(c: Config, lines: seq<string>, i: nat, parseInt: string -> Option<int>)
    requires i < |lines|
    ensures ApplyLines(c, lines[..i + 1], parseInt) == ApplyLine(ApplyLines(c, lines[..i], parseInt), lines[i], parseInt)
  {
    assert lines[..i + 1][..i] == lines[..i];
  }

  // ---------------------------------------------------------------
  // The guard block
  // ---------------------------------------------------------------

  /** The bounds a loaded configuration satisfies. */
  predicate Normalized(c: Config) {
    && c.taskTimeMin >= 1 && c.taskTimeMax >= c.taskTimeMin
    && c.minQueuePerServer >= 1 && c.maxQueuePerServer >= c.minQueuePerServer
    && c.scaleCooldownN >= 0
    && 0 <= c.blockedChancePercent <= 100
    && (c.logVerboseDrops == 0 || c.logVerboseDrops == 1)
    && c.logCheckpointInterval >= 1
  }

  /** `x` raised to `lo` when below it. */
  function AtLeast(x: int, lo: int): (r: int)
    ensures x >= lo ==> r == x
    ensures x < lo ==> r == lo
  {
    if x < lo then lo else x
  }

  /** The guard block, clamp by clamp in source order. */
  function Sanitize(c: Config): (r: Config)
    ensures Normalized(r)
    ensures SameProtected(r, c)
    // a field already within its bound is kept
    ensures c.taskTimeMin >= 1 ==> r.taskTimeMin == c.taskTimeMin
    ensures c.taskTimeMax >= r.taskTimeMin ==> r.taskTimeMax == c.taskTimeMax
    ensures c.minQueuePerServer >= 1 ==> r.minQueuePerServer == c.minQueuePerServer
    ensures c.maxQueuePerServer >= r.minQueuePerServer ==> r.maxQueuePerServer == c.maxQueuePerServer
    ensures c.scaleCooldownN >= 0 ==> r.scaleCooldownN == c.scaleCooldownN
    ensures 0 <= c.blockedChancePercent <= 100 ==> r.blockedChancePercent == c.blockedChancePercent
    ensures c.logVerboseDrops == 0 || c.logVerboseDrops == 1 ==> r.logVerboseDrops == c.logVerboseDrops
    ensures c.logCheckpointInterval >= 1 ==> r.logCheckpointInterval == c.logCheckpointInterval
    // a field out of its bound is clamped to the nearest value within it
    ensures c.taskTimeMin < 1 ==> r.taskTimeMin == 1
    ensures c.taskTimeMax < r.taskTimeMin ==> r.taskTimeMax == r.taskTimeMin
    ensures c.minQueuePerServer < 1 ==> r.minQueuePerServer == 1
    ensures c.maxQueuePerServer < r.minQueuePerServer ==> r.maxQueuePerServer == r.minQueuePerServer
    ensures c.scaleCooldownN < 0 ==> r.scaleCooldownN == 0
    ensures c.blockedChancePercent < 0 ==> r.blockedChancePercent == 0
    ensures c.blockedChancePercent > 100 ==> r.blockedChancePercent == 100
    ensures c.logVerboseDrops != 0 ==> r.logVerboseDrops == 1
    ensures c.logCheckpointInterval < 1 ==> r.logCheckpointInterval == 1
  {
    var taskMin := AtLeast(c.taskTimeMin, 1);
    var taskMax := AtLeast(c.taskTimeMax, taskMin);
    var queueMin := AtLeast(c.minQueuePerServer, 1);
    var queueMax := AtLeast(c.maxQueuePerServer, queueMin);
    var cooldown := AtLeast(c.scaleCooldownN, 0);
    var blocked := if c.blockedChancePercent < 0 then 0
                   else if c.blockedChancePercent > 100 then 100
                   else c.blockedChancePercent;
    var verbose := if c.logVerboseDrops != 0 then 1 else c.logVerboseDrops;
    var checkpoint := AtLeast(c.logCheckpointInterval, 1);
    c.(taskTimeMin := taskMin, taskTimeMax := taskMax,
       minQueuePerServer := queueMin, maxQueuePerServer := queueMax,
       scaleCooldownN := cooldown, blockedChancePercent := blocked,
       logVerboseDrops := verbose, logCheckpointInterval := checkpoint)
  }

  /** The guard block changes nothing in a configuration that already keeps
      its bounds, so applying it twice is applying it once. */
  lemma SanitizeIdempotent(c: Config)
    ensures Normalized(c) <==> Sanitize(c) == c
    ensures Sanitize(Sanitize(c)) == Sanitize(c)
  {
  }

  // ---------------------------------------------------------------
  // Loading a file
  // ---------------------------------------------------------------

  /** Reads every line into `cfg`, then applies the guard block. A file
      that cannot be opened leaves `cfg` as it was and reports failure. */
  method LoadFromFile(file: Option<seq<string>>, cfg: Config, parseInt: string -> Option<int>)
    returns (ok: bool, out: Config)
    ensures ok <==> file.Some?
    ensures !ok ==> out == cfg
    ensures ok ==> out == Sanitize(ApplyLines(cfg, file.value, parseInt))
  {
    if file.None? {
      return false, cfg;
    }
    var lines := file.value;
    out := cfg;
    for i := 0 to |lines|
      invariant out == ApplyLines(cfg, lines[..i], parseInt)
    {
      ApplyLinesStep(cfg, lines, i, parseInt);
      var line := Trim(lines[i]);
      if |line| == 0 {
        assert ClassifyLine(lines[i]) == Blank;
        continue;
      }
      if line[0] == '#' {
        assert ClassifyLine(lines[i]) == Comment;
        continue;
      }
      var eq := Find(line, '=');
      if eq == |line| {
        assert ClassifyLine(lines[i]) == NoEquals;
        continue;
      }
      var key := Trim(line[..eq]);
      var val := Trim(line[eq + 1..]);
      assert ClassifyLine(lines[i]) == Entry(key, val);
      out := ApplyEntry(out, key, val, parseInt);
    }
    assert lines[..|lines|] == lines;
    ghost var loaded := out;
    ghost var goal := Sanitize(loaded);

    if out.taskTimeMin < 1 { out := out.(taskTimeMin := 1); }
    if out.taskTimeMax < out.taskTimeMin { out := out.(taskTimeMax := out.taskTimeMin); }
    assert out == loaded.(taskTimeMin := goal.taskTimeMin, taskTimeMax := goal.taskTimeMax);

    if out.minQueuePerServer < 1 { out := out.(minQueuePerServer := 1); }
    if out.maxQueuePerServer < out.minQueuePerServer { out := out.(maxQueuePerServer := out.minQueuePerServer); }
    assert out == goal.(scaleCooldownN := loaded.scaleCooldownN, blockedChancePercent := loaded.blockedChancePercent,
                        logVerboseDrops := loaded.logVerboseDrops, logCheckpointInterval := loaded.logCheckpointInterval);

    if out.scaleCooldownN < 0 { out := out.(scaleCooldownN := 0); }

    if out.blockedChancePercent < 0 { out := out.(blockedChancePercent := 0); }
    if out.blockedChancePercent > 100 { out := out.(blockedChancePercent := 100); }
    assert out == goal.(logVerboseDrops := loaded.logVerboseDrops, logCheckpointInterval := loaded.logCheckpointInterval);

    if out.logVerboseDrops != 0 { out := out.(logVerboseDrops := 1); }
    if out.logCheckpointInterval < 1 { out := out.(logCheckpointInterval := 1); }
    ok := true;
  }

  // ---------------------------------------------------------------
  // Properties of loading
  // ---------------------------------------------------------------

  /** A line that is blank after trimming, starts with `#`, or holds no
      `=` leaves the configuration as it was. */
  lemma SkippedLine(c: Config, raw: string, parseInt: string -> Option<int>)
    requires Trimmed(raw) == "" || Trimmed(raw)[0] == '#' || '=' !in raw
    ensures !ClassifyLine(raw).Entry?
    ensures ApplyLine(c, raw, parseInt) == c
  {
    var line := Trimmed(raw);
    if |line| > 0 && line[0] != '#' {
      var a, b := TrimmedShape(raw);
    }
  }

  /** A text that trimming leaves as it is has no white space at its ends. */
  lemma TrimmedEnds(s: string)
    requires Trimmed(s) == s
    ensures |s| > 0 ==> !IsSpace(s[0]) && !IsSpace(s[|s| - 1])
  {
    var a, b := TrimmedShape(s);
    assert |s[a..b]| == |s|;
  }

  /** A line is split at its first `=`: writing a trimmed key without `=`
      (and not starting with `#`), then `=`, then a trimmed value (which may
      itself contain `=`) reads back as that key and that value. */
  lemma EntryRoundTrip(key: string, val: string)
    requires Trimmed(key) == key && Trimmed(val) == val
    requires '=' !in key
    requires |key| > 0 ==> key[0] != '#'
    ensures ClassifyLine(key + "=" + val) == Entry(key, val)
  {
    var line := key + "=" + val;
    TrimmedEnds(key);
    TrimmedEnds(val);
    assert line[0] == if |key| > 0 then key[0] else '=';
    assert line[|line| - 1] == if |val| > 0 then val[|val| - 1] else '=';
    TrimmedUnique(line, 0, |line|);
    assert line[0..|line|] == line;
    forall i | 0 <= i < |key| ensures line[i] != '=' {
      assert line[i] == key[i];
    }
    assert line[|key|] == '=';
    EntryAt(line, line, |key|);
    SplitAtEquals(key, val);
  }

  /** White space added around a text without white space at its ends is
      removed again by trimming. */
  lemma TrimPadding(w1: string, t: string, w2: string)
    requires SpacesBetween(w1, 0, |w1|) && SpacesBetween(w2, 0, |w2|)
    requires |t| > 0 && !IsSpace(t[0]) && !IsSpace(t[|t| - 1])
    ensures Trimmed(w1 + t + w2) == t
  {
    var s := w1 + t + w2;
    var a, b := |w1|, |w1| + |t|;
    assert s[a] == t[0] && s[b - 1] == t[|t| - 1];
    assert SpacesBetween(s, 0, a) by {
      forall m | 0 <= m < a ensures IsSpace(s[m]) {
        assert s[m] == w1[m];
      }
    }
    assert SpacesBetween(s, b, |s|) by {
      forall m | b <= m < |s| ensures IsSpace(s[m]) {
        assert s[m] == w2[m - b];
      }
    }
    TrimmedUnique(s, a, b);
    assert s[a..b] == t;
  }

  /** A line whose trimmed text `t` is non-empty, does not start with `#`
      and has its first `=` at `e` is the entry of the trimmed pieces
      around that `=`. */
  lemma EntryAt(raw: string, t: string, e: nat)
    requires Trimmed(raw) == t && e < |t| && t[0] != '#' && t[e] == '='
    requires forall i :: 0 <= i < e ==> t[i] != '='
    ensures ClassifyLine(raw) == Entry(Trimmed(t[..e]), Trimmed(t[e + 1..]))
  {
    assert Find(t, '=') == e;
  }

  /** Key and value are each trimmed: white space before the key, around
      the `=` and after the value does not reach them, so `key = value`
      padded with blanks reads as the same entry as `key=value`. */
  lemma PaddedEntryRoundTrip(w1: string, key: string, w2: string, w3: string, val: string, w4: string)
    requires SpacesBetween(w1, 0, |w1|) && SpacesBetween(w2, 0, |w2|)
    requires SpacesBetween(w3, 0, |w3|) && SpacesBetween(w4, 0, |w4|)
    requires |key| > 0 && |val| > 0
    requires Trimmed(key) == key && Trimmed(val) == val
    requires '=' !in key && key[0] != '#'
    ensures ClassifyLine(w1 + key + w2 + "=" + w3 + val + w4) == Entry(key, val)
  {
    TrimmedEnds(key);
    TrimmedEnds(val);
    var k, v := key + w2, w3 + val;
    var t := k + "=" + v;
    assert t[0] == key[0] && t[|t| - 1] == val[|val| - 1];
    TrimPadding(w1, t, w4);
    assert w1 + key + w2 + "=" + w3 + val + w4 == w1 + t + w4;
    var e := |k|;
    forall i | 0 <= i < e ensures t[i] != '=' {
      if i < |key| {
        assert t[i] == key[i];
      } else {
        assert t[i] == w2[i - |key|];
      }
    }
    EntryAt(w1 + t + w4, t, e);
    SplitAtEquals(k, v);
    TrimPaddingAfter(key, w2);
    TrimPaddingBefore(w3, val);
  }

  /** The two pieces on either side of a written `=`. */
  lemma SplitAtEquals(k: string, v: string)
    ensures (k + "=" + v)[..|k|] == k && (k + "=" + v)[|k| + 1..] == v
  {
  }

  /** Trailing white space is trimmed away. */
  lemma TrimPaddingAfter(t: string, w: string)
    requires SpacesBetween(w, 0, |w|)
    requires |t| > 0 && !IsSpace(t[0]) && !IsSpace(t[|t| - 1])
    ensures Trimmed(t + w) == t
  {
    TrimPadding("", t, w);
    assert "" + t + w == t + w;
  }

  /** Leading white space is trimmed away. */
  lemma TrimPaddingBefore(w: string, t: string)
    requires SpacesBetween(w, 0, |w|)
    requires |t| > 0 && !IsSpace(t[0]) && !IsSpace(t[|t| - 1])
    ensures Trimmed(w + t) == t
  {
    TrimPadding(w, t, "");
    assert w + t + "" == w + t;
  }

  /** The lines that would overwrite field `f`: an entry with its key and a
      value that parses. */
  predicate Sets(raw: string, f: Field, parseInt: string -> Option<int>) {
    var k := ClassifyLine(raw);
    k.Entry? && FieldOfKey(k.key) == Some(f) && parseInt(k.value).Some?
  }

  /** A line that does not set `f` leaves `f` as it was. */
  lemma LineKeepsOthers(c: Config, raw: string, f: Field, parseInt: string -> Option<int>)
    requires !Sets(raw, f, parseInt)
    ensures Get(ApplyLine(c, raw, parseInt), f) == Get(c, f)
  {
  }

  lemma ApplyLinesSnoc(c: Config, lines: seq<string>, raw: string, parseInt: string -> Option<int>)
    ensures ApplyLines(c, lines + [raw], parseInt) == ApplyLine(ApplyLines(c, lines, parseInt), raw, parseInt)
  {
    assert (lines + [raw])[..|lines|] == lines;
  }

  /** When a key repeats, the last occurrence whose value parses wins: the
      field holds the value of the last line that sets it. */
  lemma {:induction false} LastWins(c: Config, pre: seq<string>, raw: string, post: seq<string>,
                                    f: Field, parseInt: string -> Option<int>)
    requires Sets(raw, f, parseInt)
    requires forall j :: 0 <= j < |post| ==> !Sets(post[j], f, parseInt)
    ensures Get(ApplyLines(c, pre + [raw] + post, parseInt), f) == parseInt(ClassifyLine(raw).value).value
    decreases |post|
  {
    if |post| == 0 {
      assert pre + [raw] + post == pre + [raw];
      ApplyLinesSnoc(c, pre, raw, parseInt);
    } else {
      var last := post[|post| - 1];
      var post' := post[..|post| - 1];
      assert pre + [raw] + post == (pre + [raw] + post') + [last];
      LastWins(c, pre, raw, post', f, parseInt);
      ApplyLinesSnoc(c, pre + [raw] + post', last, parseInt);
      LineKeepsOthers(ApplyLines(c, pre + [raw] + post', parseInt), last, f, parseInt);
    }
  }

  /** No line sets `f`: the file leaves `f` at its previous value. */
  lemma {:induction false} UnsetFieldKept(c: Config, lines: seq<string>, f: Field, parseInt: string -> Option<int>)
    requires forall j :: 0 <= j < |lines| ==> !Sets(lines[j], f, parseInt)
    ensures Get(ApplyLines(c, lines, parseInt), f) == Get(c, f)
    decreases |lines|
  {
    if |lines| > 0 {
      UnsetFieldKept(c, lines[..|lines| - 1], f, parseInt);
      LineKeepsOthers(ApplyLines(c, lines[..|lines| - 1], parseInt), lines[|lines| - 1], f, parseInt);
    }
  }

  /** A loaded configuration keeps its bounds and the four fields no line
      may change. */
  lemma LoadedNormalized(cfg: Config, lines: seq<string>, parseInt: string -> Option<int>)
    ensures Normalized(Sanitize(ApplyLines(cfg, lines, parseInt)))
    ensures SameProtected(Sanitize(ApplyLines(cfg, lines, parseInt)), cfg)
  {
  }

  /** The built-in defaults already keep every bound, so a file with no
      lines loads them unchanged. */
  lemma DefaultLoadsUnchanged(parseInt: string -> Option<int>)
    ensures Normalized(Default)
    ensures Sanitize(ApplyLines(Default, [], parseInt)) == Default
  {
    SanitizeIdempotent(Default);
  }
}
