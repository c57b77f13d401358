/** Request generation with the random draws supplied as input.
    Each request consumes ten draws, in order: four octets of the source
    address, four octets of the destination address, the service time,
    and the job bit. */
module Factory {
  import opened Requests

  const DrawsPerIP: nat := 4
  const DrawsPerRequest: nat := 10

  predicate IsDigit(c: char) {
    '0' <= c <= '9'
  }

  function DigitChar(d: nat): (c: char)
    requires d < 10
    ensures IsDigit(c)
  {
    (('0' as int) + d) as char
  }

  function DigitValue(c: char): nat
    requires IsDigit(c)
  {
    (c as int) - ('0' as int)
  }

  /** The decimal digits of `n`, most significant first. */
  function Digits(n: nat): (s: string)
    ensures |s| >= 1
    ensures forall i :: 0 <= i < |s| ==> IsDigit(s[i])
    decreases n
  {
    if n < 10 then [DigitChar(n)] else Digits(n / 10) + [DigitChar(n % 10)]
  }

  /** The text `std::to_string` gives for an integer. */
  function DecimalText(n: int): (s: string)
    ensures |s| >= 1
    ensures s[0] == '-' <==> n < 0
  {
    if n < 0 then "-" + Digits(-n) else Digits(n)
  }

  /** The number a run of digits denotes. */
  function DigitsValue(s: string): nat
    requires forall i :: 0 <= i < |s| ==> IsDigit(s[i])
  {
    if |s| == 0 then 0 else DigitsValue(s[..|s| - 1]) * 10 + DigitValue(s[|s| - 1])
  }

  /** Reads a non-empty run of decimal digits; anything else fails. */
  function ParseDecimal(s: string): Option<nat> {
    if |s| > 0 && forall i :: 0 <= i < |s| ==> IsDigit(s[i]) then Some(DigitsValue(s)) else None
  }

  /** Cuts `s` at every occurrence of `sep`. */
  function Split(s: string, sep: char): (parts: seq<string>)
    ensures |parts| >= 1
  {
    if |s| == 0 then [""]
    else
      var rest := Split(s[1..], sep);
      if s[0] == sep then [""] + rest else [[s[0]] + rest[0]] + rest[1..]
  }

  function CountChar(s: string, c: char): nat {
    if |s| == 0 then 0 else (if s[0] == c then 1 else 0) + CountChar(s[1..], c)
  }

  /** Reads a dotted-quad address back into its four octet values. */
  function ParseIP(ip: string): Option<seq<int>> {
    var parts := Split(ip, '.');
    if |parts| != 4 then None
    else
      match (ParseDecimal(parts[0]), ParseDecimal(parts[1]), ParseDecimal(parts[2]), ParseDecimal(parts[3]))
      case (Some(a), Some(b), Some(c), Some(d)) => Some([a, b, c, d])
      case _ => None
  }

  predicate IsOctet(n: int) {
    0 <= n <= 255
  }

  /** An address from four octet draws, and the draws left over. */
  function RandomIP(draws: seq<int>): (res: (string, seq<int>))
    requires |draws| >= DrawsPerIP
    ensures res.1 == draws[DrawsPerIP..]
  {
    (DecimalText(draws[0]) + "." + DecimalText(draws[1]) + "." +
     DecimalText(draws[2]) + "." + DecimalText(draws[3]),
     draws[DrawsPerIP..])
  }

  /** The job class a job draw selects. */
  function JobType(draw: int): (c: char)
    ensures c == 'P' || c == 'S'
    ensures c == 'P' <==> draw == 0
  {
    if draw == 0 then 'P' else 'S'
  }

  /** A request built from the next ten draws, and the draws left over. */
  function MakeRequest(draws: seq<int>): (res: (Request, seq<int>))
    requires |draws| >= DrawsPerRequest
    ensures res.1 == draws[DrawsPerRequest..]
    ensures res.0.jobType == 'P' || res.0.jobType == 'S'
  {
    var (ipIn, afterIn) := RandomIP(draws);
    var (ipOut, afterOut) := RandomIP(afterIn);
    var time := afterOut[0];
    var job := afterOut[1];
    (Request(ipIn, ipOut, time, JobType(job)), afterOut[2..])
  }

  /** The draws the distributions of a factory can produce for one request:
      octets in [0,255], a service time in [timeMin, timeMax], a job bit. */
  predicate DrawsInRange(draws: seq<int>, timeMin: int, timeMax: int)
    requires |draws| >= DrawsPerRequest
  {
    (forall i :: 0 <= i < 2 * DrawsPerIP ==> IsOctet(draws[i]))
    && timeMin <= draws[8] <= timeMax
    && 0 <= draws[9] <= 1
  }

  // ---------------------------------------------------------------
  // Decimal text of an octet
  // ---------------------------------------------------------------

  lemma {:induction false} DigitsRoundTrip(n: nat)
    ensures DigitsValue(Digits(n)) == n
    decreases n
  {
    if n >= 10 {
      DigitsRoundTrip(n / 10);
      var s := Digits(n);
      assert s[..|s| - 1] == Digits(n / 10);
    }
  }

  /** No leading zero except for the number zero itself. */
  lemma {:induction false} DigitsNoLeadingZero(n: nat)
    ensures Digits(n)[0] == '0' <==> n == 0
    decreases n
  {
    if n >= 10 {
      DigitsNoLeadingZero(n / 10);
    }
  }

  /** The text of an octet is one to three digits without a leading zero,
      contains no '.', and reads back as the octet. */
  lemma OctetText(n: int)
    requires IsOctet(n)
    ensures 1 <= |DecimalText(n)| <= 3
    ensures DecimalText(n)[0] == '0' ==> DecimalText(n) == "0"
    ensures '.' !in DecimalText(n)
    ensures ParseDecimal(DecimalText(n)) == Some(n)
  {
    DigitsRoundTrip(n);
    DigitsNoLeadingZero(n);
    if n >= 10 {
      assert |Digits(n / 10)| <= 2 by {
        if n / 10 >= 10 {
          assert n / 100 < 10;
        }
      }
    }
    var s := DecimalText(n);
    forall i | 0 <= i < |s| ensures s[i] != '.' {
      assert IsDigit(s[i]);
    }
  }

  // ---------------------------------------------------------------
  // Splitting the dotted text back into its parts
  // ---------------------------------------------------------------

  lemma {:induction false} SplitNoSep(a: string, sep: char)
    requires sep !in a
    ensures Split(a, sep) == [a]
  {
    if |a| > 0 {
      SplitNoSep(a[1..], sep);
      assert [a[0]] + a[1..] == a;
    }
  }

  lemma {:induction false} SplitAtSep(a: string, sep: char, b: string)
    requires sep !in a
    ensures Split(a + [sep] + b, sep) == [a] + Split(b, sep)
  {
    if |a| == 0 {
      assert a + [sep] + b == [sep] + b;
      assert ([sep] + b)[1..] == b;
    } else {
      SplitAtSep(a[1..], sep, b);
      assert (a + [sep] + b)[1..] == a[1..] + [sep] + b;
      assert [a[0]] + a[1..] == a;
    }
  }

  lemma {:induction false} CountCharConcat(a: string, b: string, c: char)
    ensures CountChar(a + b, c) == CountChar(a, c) + CountChar(b, c)
  {
    if |a| > 0 {
      CountCharConcat(a[1..], b, c);
      assert (a + b)[1..] == a[1..] + b;
    } else {
      assert a + b == b;
    }
  }

  lemma {:induction false} CountCharAbsent(a: string, c: char)
    requires c !in a
    ensures CountChar(a, c) == 0
  {
    if |a| > 0 {
      CountCharAbsent(a[1..], c);
    }
  }

  /** Four dot-free texts joined by dots split back into those texts. */
  lemma SplitDotted(t0: string, t1: string, t2: string, t3: string)
    requires '.' !in t0 && '.' !in t1 && '.' !in t2 && '.' !in t3
    ensures Split(t0 + "." + t1 + "." + t2 + "." + t3, '.') == [t0, t1, t2, t3]
  {
    SplitNoSep(t3, '.');
    SplitAtSep(t2, '.', t3);
    SplitAtSep(t1, '.', t2 + "." + t3);
    SplitAtSep(t0, '.', t1 + "." + (t2 + "." + t3));
    assert t0 + "." + t1 + "." + t2 + "." + t3 == t0 + "." + (t1 + "." + (t2 + "." + t3));
  }

  /** Four dot-free texts joined by dots hold exactly three dots. */
  lemma CountDotted(t0: string, t1: string, t2: string, t3: string)
    requires '.' !in t0 && '.' !in t1 && '.' !in t2 && '.' !in t3
    ensures CountChar(t0 + "." + t1 + "." + t2 + "." + t3, '.') == 3
  {
    CountCharAbsent(t0, '.');
    CountCharAbsent(t1, '.');
    CountCharAbsent(t2, '.');
    CountCharAbsent(t3, '.');
    CountCharConcat(t0 + "." + t1 + "." + t2 + ".", t3, '.');
    CountCharConcat(t0 + "." + t1 + "." + t2, ".", '.');
    CountCharConcat(t0 + "." + t1 + ".", t2, '.');
    CountCharConcat(t0 + "." + t1, ".", '.');
    CountCharConcat(t0 + ".", t1, '.');
    CountCharConcat(t0, ".", '.');
  }

  /** An address made from four octet draws holds exactly three dots,
      splits into the four octet texts, and reads back as the four draws. */
  lemma RandomIPRoundTrip(draws: seq<int>)
    requires |draws| >= DrawsPerIP
    requires forall i :: 0 <= i < DrawsPerIP ==> IsOctet(draws[i])
    ensures var ip := RandomIP(draws).0;
      && CountChar(ip, '.') == 3
      && Split(ip, '.') == [DecimalText(draws[0]), DecimalText(draws[1]),
                            DecimalText(draws[2]), DecimalText(draws[3])]
      && ParseIP(ip) == Some(draws[..DrawsPerIP])
  {
    OctetText(draws[0]);
    OctetText(draws[1]);
    OctetText(draws[2]);
    OctetText(draws[3]);
    var t0, t1, t2, t3 := DecimalText(draws[0]), DecimalText(draws[1]),
                          DecimalText(draws[2]), DecimalText(draws[3]);
    SplitDotted(t0, t1, t2, t3);
    CountDotted(t0, t1, t2, t3);
    assert [draws[0], draws[1], draws[2], draws[3]] == draws[..DrawsPerIP];
  }

  /** What a request made from the draws holds: the source address reads
      back as draws 0-3, the destination as draws 4-7, the service time is
      draw 8 and the job class is 'P' exactly when draw 9 is zero. When the
      draws lie in the distributions' ranges, the service time lies in
      [timeMin, timeMax]. */
  lemma MakeRequestFields(draws: seq<int>, timeMin: int, timeMax: int)
    requires |draws| >= DrawsPerRequest
    requires DrawsInRange(draws, timeMin, timeMax)
    ensures var r := MakeRequest(draws).0;
      && ParseIP(r.ipIn) == Some(draws[0..4])
      && ParseIP(r.ipOut) == Some(draws[4..8])
      && r.timeRequired == draws[8]
      && timeMin <= r.timeRequired <= timeMax
      && (r.jobType == 'P' <==> draws[9] == 0)
  {
    RandomIPRoundTrip(draws);
    var rest := draws[DrawsPerIP..];
    RandomIPRoundTrip(rest);
    assert rest[..DrawsPerIP] == draws[4..8];
    assert draws[..DrawsPerIP] == draws[0..4];
  }
}
