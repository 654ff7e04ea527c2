/** The iPXE script buffer (ipxe/script.go) and the list of lines it stands for. */
module IpxeScript {

  const NL: char := '\n'
  const SHEBANG := "#!ipxe"

  // ---- text and lines -----------------------------------------------------

  predicate OneLine(s: string) { NL !in s }

  /** The text between newlines; one more part than there are newlines. */
  function Split(s: string): (ls: seq<string>)
    ensures |ls| >= 1
  {
    if s == "" then [""]
    else
      var ls, c := Split(s[..|s| - 1]), s[|s| - 1];
      if c == NL then ls + [""] else Extend(ls, [c])
  }

  /** `ls` with `t` added to its last line. */
  function Extend(ls: seq<string>, t: string): (r: seq<string>)
    requires |ls| >= 1
    ensures |r| == |ls|
  {
    ls[|ls| - 1 := ls[|ls| - 1] + t]
  }

  function Joined(ls: seq<string>): string
    requires |ls| >= 1
  {
    if |ls| == 1 then ls[0] else Joined(ls[..|ls| - 1]) + [NL] + ls[|ls| - 1]
  }

  lemma {:induction false} SplitExtend(s: string, t: string)
    requires OneLine(t)
    ensures Split(s + t) == Extend(Split(s), t)
    decreases |t|
  {
    if t == "" {
      assert s + t == s;
      var ls := Split(s);
      assert ls[|ls| - 1] + "" == ls[|ls| - 1];
    } else {
      var u, c := t[..|t| - 1], t[|t| - 1];
      SplitExtend(s, u);
      assert (s + t)[..|s + t| - 1] == s + u;
      assert u + [c] == t;
      var ls := Split(s);
      assert ls[|ls| - 1] + u + [c] == ls[|ls| - 1] + t;
    }
  }

  lemma SplitNewLine(s: string, t: string)
    requires OneLine(t)
    ensures Split(s + [NL] + t) == Split(s) + [t]
  {
    SplitExtend(s + [NL], t);
    assert (s + [NL])[..|s|] == s;
    assert "" + t == t;
  }

  lemma {:induction false} JoinedExtend(ls: seq<string>, t: string)
    requires |ls| >= 1
    ensures Joined(Extend(ls, t)) == Joined(ls) + t
  {
    var r := Extend(ls, t);
    if |ls| > 1 {
      assert r[..|r| - 1] == ls[..|ls| - 1];
      assert Joined(ls[..|ls| - 1]) + [NL] + (ls[|ls| - 1] + t) == Joined(ls) + t;
    }
  }

  /** Splitting loses nothing and leaves no newline behind. */
  lemma {:induction false} SplitInverse(s: string)
    ensures Joined(Split(s)) == s
    ensures forall i :: 0 <= i < |Split(s)| ==> OneLine(Split(s)[i])
    decreases |s|
  {
    if s != "" {
      var u, c := s[..|s| - 1], s[|s| - 1];
      SplitInverse(u);
      assert u + [c] == s;
      if c == NL {
        var ls := Split(u) + [""];
        assert ls[..|ls| - 1] == Split(u);
        assert Joined(ls) == u + [NL] + "";
      } else {
        JoinedExtend(Split(u), [c]);
      }
    }
  }

  /** The lines of a buffer that ends in a newline. */
  function LinesOf(buf: string): seq<string> {
    if buf == "" then [] else Split(buf[..|buf| - 1])
  }

  predicate EndsLine(buf: string) { |buf| > 0 && buf[|buf| - 1] == NL }

  lemma AppendIsNewLine(buf: string, t: string)
    requires EndsLine(buf) && OneLine(t)
    ensures LinesOf(buf + t + [NL]) == LinesOf(buf) + [t]
  {
    var s := buf[..|buf| - 1];
    assert buf == s + [NL];
    assert (buf + t + [NL])[..|buf + t|] == s + [NL] + t;
    SplitNewLine(s, t);
  }

  lemma ReplaceIsExtend(buf: string, t: string)
    requires EndsLine(buf) && OneLine(t)
    ensures LinesOf(buf[..|buf| - 1] + t + [NL]) == Extend(LinesOf(buf), t)
  {
    var s := buf[..|buf| - 1];
    assert (s + t + [NL])[..|s + t|] == s + t;
    SplitExtend(s, t);
  }

  /** Arguments, each after a space. */
  function Spaced(args: seq<string>): string {
    if args == [] then "" else Spaced(args[..|args| - 1]) + " " + args[|args| - 1]
  }

  /** Every line with its newline. */
  function Render(ls: seq<string>): string {
    if ls == [] then "" else Render(ls[..|ls| - 1]) + ls[|ls| - 1] + [NL]
  }

  predicate AllOneLine(args: seq<string>) {
    forall i :: 0 <= i < |args| ==> OneLine(args[i])
  }

  lemma JoinOneLine(a: seq<string>, b: seq<string>)
    requires AllOneLine(a) && AllOneLine(b)
    ensures AllOneLine(a + b)
  {
  }

  lemma {:induction false} SpacedOneLine(args: seq<string>)
    requires AllOneLine(args)
    ensures OneLine(Spaced(args))
    decreases |args|
  {
    if args != [] { SpacedOneLine(args[..|args| - 1]); }
  }

  lemma {:induction false} SpacedConcat(a: seq<string>, b: seq<string>)
    ensures Spaced(a + b) == Spaced(a) + Spaced(b)
    decreases |b|
  {
    if b == [] {
      assert a + b == a;
    } else {
      var most, last := b[..|b| - 1], b[|b| - 1];
      SpacedConcat(a, most);
      assert (a + b)[..|a + b| - 1] == a + most && (a + b)[|a + b| - 1] == last;
      assert Spaced(a) + Spaced(most) + " " + last == Spaced(a) + (Spaced(most) + " " + last);
    }
  }

  lemma {:induction false} RenderIsNewLines(buf: string, ls: seq<string>)
    requires EndsLine(buf) && AllOneLine(ls)
    ensures EndsLine(buf + Render(ls)) && LinesOf(buf + Render(ls)) == LinesOf(buf) + ls
    decreases |ls|
  {
    if ls == [] {
      assert buf + "" == buf;
    } else {
      var most, last := ls[..|ls| - 1], ls[|ls| - 1];
      RenderIsNewLines(buf, most);
      AppendIsNewLine(buf + Render(most), last);
      assert buf + Render(ls) == buf + Render(most) + last + [NL];
      assert LinesOf(buf) + most + [last] == LinesOf(buf) + ls;
    }
  }

  // ---- what one call does to the buffer -----------------------------------

  datatype Call =
    | Append(line: string)      // Echo, Set, Chain, Kernel, Initrd, Boot, DHCP, Shell, Sleep, AppendString
    | Continue(text: string)    // Args, Or
    | PhoneHome(typ: string)
    | Restart                   // Reset

  predicate WellFormed(buf: string) {
    SHEBANG + [NL] <= buf && |buf| > |SHEBANG| + 1 && EndsLine(buf)
  }

  function After(buf: string, c: Call): string
    requires EndsLine(buf)
  {
    match c
    case Append(line) => buf + line + [NL]
    case Continue(text) => buf[..|buf| - 1] + text + [NL]
    case PhoneHome(typ) => buf + Render(PhoneHomeLines(typ))
    case Restart => FreshText()
  }

  function PhoneHomeLines(typ: string): seq<string> {
    ["", "params", BODY, "param type " + typ, FETCH, "imgfree", ""]
  }

  const BODY := "param body Device connected to DHCP system"
  const FETCH := "imgfetch ${tinkerbell}/phone-home##params"

  lemma BodyOneLine()
    ensures OneLine(BODY)
  {
  }

  lemma FetchOneLine()
    ensures OneLine(FETCH)
  {
  }

  /** The same call on a list of lines. */
  function Edit(ls: seq<string>, c: Call): seq<string> {
    match c
    case Append(line) => ls + [line]
    case Continue(text) => if ls == [] then ls else Extend(ls, text)
    case PhoneHome(typ) => ls + PhoneHomeLines(typ)
    case Restart => FRESH
  }

  predicate OneLineCall(c: Call) {
    match c
    case Append(line) => OneLine(line)
    case Continue(text) => OneLine(text)
    case PhoneHome(typ) => OneLine(typ)
    case Restart => true
  }

  lemma RenderEnds(ls: seq<string>)
    requires ls != []
    ensures EndsLine(Render(ls))
  {
  }

  lemma PhoneHomeOneLine(typ: string)
    requires OneLine(typ)
    ensures AllOneLine(PhoneHomeLines(typ))
  {
    var ls := PhoneHomeLines(typ);
    BodyOneLine();
    FetchOneLine();
    forall i | 0 <= i < |ls| ensures OneLine(ls[i]) {
      if i == 3 { assert OneLine("param type ") && OneLine(typ); }
    }
  }

  /** Whatever its arguments hold, a call keeps the header and the final newline, and all
      but Reset take away at most that newline. */
  lemma CallKeeps(buf: string, c: Call)
    requires WellFormed(buf)
    ensures WellFormed(After(buf, c))
    ensures c.Restart? || (buf[..|buf| - 1] <= After(buf, c) && |buf| <= |After(buf, c)|)
    ensures OneLineCall(c) ==> LinesOf(After(buf, c)) == Edit(LinesOf(buf), c)
  {
    match c {
      case Append(line) =>
        if OneLine(line) { AppendIsNewLine(buf, line); }
      case Continue(text) =>
        if OneLine(text) { ReplaceIsExtend(buf, text); }
      case PhoneHome(typ) =>
        RenderEnds(PhoneHomeLines(typ));
        if OneLine(typ) {
          PhoneHomeOneLine(typ);
          RenderIsNewLines(buf, PhoneHomeLines(typ));
        }
      case Restart => FreshLines();
    }
  }

  function AfterAll(buf: string, calls: seq<Call>): (r: string)
    requires WellFormed(buf)
    ensures WellFormed(r)
    decreases |calls|
  {
    if calls == [] then buf
    else
      var b := AfterAll(buf, calls[..|calls| - 1]);
      CallKeeps(b, calls[|calls| - 1]);
      After(b, calls[|calls| - 1])
  }

  function EditAll(ls: seq<string>, calls: seq<Call>): seq<string> {
    if calls == [] then ls else Edit(EditAll(ls, calls[..|calls| - 1]), calls[|calls| - 1])
  }

  /** Over any run of calls: the header and the final newline stay, without a Reset nothing
      but one newline is lost, and the script is the list of lines the calls describe. */
  lemma {:induction false} RunKeeps(buf: string, calls: seq<Call>)
    requires WellFormed(buf)
    ensures var end := AfterAll(buf, calls);
      WellFormed(end) && (Restart in calls || (buf[..|buf| - 1] <= end && |buf| <= |end|))
    ensures (forall c :: c in calls ==> OneLineCall(c)) ==>
      LinesOf(AfterAll(buf, calls)) == EditAll(LinesOf(buf), calls)
    decreases |calls|
  {
    if calls != [] {
      var most, last := calls[..|calls| - 1], calls[|calls| - 1];
      RunKeeps(buf, most);
      CallKeeps(AfterAll(buf, most), last);
    }
  }

  function SetLine(name: string, value: string): string { "set " + name + " " + value }

  function Digits(n: nat): string {
    (if n < 10 then "" else Digits(n / 10)) + ['0' + (n % 10) as char]
  }

  /** fmt's %d. */
  function Number(v: int): string { if v < 0 then "-" + Digits(-v) else Digits(v) }

  /** Reading decimal digits from the left. */
  function Read(s: string): int {
    if s == "" then 0 else Read(s[..|s| - 1]) * 10 + (s[|s| - 1] as int - '0' as int)
  }

  /** The digits read back as the number, and there is no leading zero. */
  lemma {:induction false} DigitsReadBack(n: nat)
    ensures Read(Digits(n)) == n && Digits(n) != "" && (n > 0 ==> Digits(n)[0] != '0')
  {
    var s := Digits(n);
    if n >= 10 {
      DigitsReadBack(n / 10);
      assert s[..|s| - 1] == Digits(n / 10);
    } else {
      assert s[..0] == "" && s == ['0' + n as char];
    }
  }

  lemma {:induction false} DigitsOneLine(n: nat)
    ensures OneLine(Digits(n))
  {
    if n >= 10 { DigitsOneLine(n / 10); }
  }

  lemma NumberOneLine(v: int)
    ensures OneLine(Number(v))
  {
    DigitsOneLine(if v < 0 then -v else v);
  }

  const GREETING := "Tinkerbell Boots iPXE"
  const FRESH: seq<string> := [SHEBANG, "", "echo " + GREETING]

  lemma GreetingOneLine()
    ensures OneLine("echo " + GREETING)
  {
    assert OneLine("echo ") && OneLine(GREETING);
  }

  lemma HeaderLines()
    ensures LinesOf(SHEBANG + [NL] + [NL]) == [SHEBANG, ""]
  {
    assert OneLine(SHEBANG);
    TwoLines(SHEBANG);
  }

  lemma TwoLines(h: string)
    requires OneLine(h)
    ensures LinesOf(h + [NL] + [NL]) == [h, ""]
  {
    OnePart(h);
    SplitNewLine(h, "");
    assert (h + [NL] + [NL])[..|h| + 1] == h + [NL] + "";
  }

  lemma OnePart(h: string)
    requires OneLine(h)
    ensures Split(h) == [h]
  {
    SplitExtend("", h);
    assert "" + h == h && Split("") == [""];
  }

  /** The text of a script nothing was added to. */
  function FreshText(): string { SHEBANG + [NL] + [NL] + ("echo " + GREETING) + [NL] }

  lemma FreshLines()
    ensures WellFormed(FreshText()) && LinesOf(FreshText()) == FRESH
  {
    HeaderLines();
    GreetingOneLine();
    AppendIsNewLine(SHEBANG + [NL] + [NL], "echo " + GREETING);
  }

  // ---- the script ---------------------------------------------------------

  class Script {
    var buf: string

    ghost predicate Valid()
      reads this
    {
      WellFormed(buf)
    }

    /** The calls of this class change the buffer as `c` says, hence the lines. */
    twostate predicate Did(c: Call)
      reads this
    {
      && WellFormed(old(buf))
      && buf == After(old(buf), c)
      && Valid()
      && (OneLineCall(c) ==> LinesOf(buf) == Edit(old(LinesOf(buf)), c))
    }

    constructor ()
      ensures Valid() && buf == FreshText() && LinesOf(buf) == FRESH
    {
      buf := "";
      new;
      Reset();
    }

    method Reset()
      modifies this
      ensures Valid() && buf == FreshText() && LinesOf(buf) == FRESH
    {
      buf := SHEBANG + [NL] + [NL];
      var greeting := GREETING;
      Echo(greeting);
      FreshLines();
    }

    method AppendString(line: string)
      requires Valid()
      modifies this
      ensures Did(Append(line))
    {
      CallKeeps(buf, Append(line));
      buf := buf + line;
      buf := buf + [NL];
    }

    method Args(args: seq<string>)
      requires Valid()
      modifies this
      ensures Did(Continue(Spaced(args)))
    {
      CallKeeps(buf, Continue(Spaced(args)));
      buf := buf[..|buf| - 1];
      ghost var base := buf;
      assert base + "" == base;
      for i := 0 to |args|
        invariant buf == base + Spaced(args[..i])
      {
        assert args[..i + 1][..i] == args[..i];
        buf := buf + " " + args[i];
        assert buf == base + (Spaced(args[..i]) + " " + args[i]);
      }
      assert args[..|args|] == args;
      buf := buf + [NL];
    }

    method Or(line: string)
      requires Valid()
      modifies this
      ensures Did(Continue(" || " + line))
    {
      CallKeeps(buf, Continue(" || " + line));
      buf := buf[..|buf| - 1] + " || ";
      buf := buf + line;
      buf := buf + [NL];
      assert buf == old(buf)[..|old(buf)| - 1] + (" || " + line) + [NL];
    }

    method PhoneHome(typ: string)
      requires Valid()
      modifies this
      ensures Did(Call.PhoneHome(typ))
    {
      CallKeeps(buf, Call.PhoneHome(typ));
      buf := buf + Render(PhoneHomeLines(typ));
    }

    method Set(name: string, value: string)
      requires Valid()
      modifies this
      ensures Did(Append(SetLine(name, value)))
    {
      CallKeeps(buf, Append(SetLine(name, value)));
      buf := buf + "set " + name;
      buf := buf + " " + value;
      buf := buf + [NL];
      assert buf == old(buf) + SetLine(name, value) + [NL];
    }

    method Echo(message: string)
      requires Valid()
      modifies this
      ensures Did(Append("echo " + message))
    {
      AppendString("echo " + message);
    }

    method Chain(uri: string)
      requires Valid()
      modifies this
      ensures Did(Append("chain --autofree " + uri))
    {
      AppendString("chain --autofree " + uri);
    }

    method Kernel(uri: string, args: seq<string>)
      requires Valid()
      modifies this
      ensures Did(Append("kernel " + uri + Spaced(args)))
    {
      AppendWithArgs("kernel " + uri, args);
    }

    method Initrd(uri: string, args: seq<string>)
      requires Valid()
      modifies this
      ensures Did(Append("initrd " + uri + Spaced(args)))
    {
      AppendWithArgs("initrd " + uri, args);
    }

    method AppendWithArgs(start: string, args: seq<string>)
      requires Valid()
      modifies this
      ensures Did(Append(start + Spaced(args)))
    {
      CallKeeps(buf, Append(start + Spaced(args)));
      buf := buf + start;
      ghost var base := buf;
      assert base + "" == base;
      for i := 0 to |args|
        invariant buf == base + Spaced(args[..i])
      {
        assert args[..i + 1][..i] == args[..i];
        buf := buf + " " + args[i];
        assert buf == base + (Spaced(args[..i]) + " " + args[i]);
      }
      assert args[..|args|] == args;
      buf := buf + [NL];
      assert buf == old(buf) + (start + Spaced(args)) + [NL];
    }

    method Sleep(value: int)
      requires Valid()
      modifies this
      ensures Did(Append("sleep " + Number(value)))
      ensures LinesOf(buf) == old(LinesOf(buf)) + ["sleep " + Number(value)]
      ensures value >= 0 ==> Read(Number(value)) == value
      ensures value < 0 ==> |Number(value)| > 1 && Number(value)[0] == '-' && Read(Number(value)[1..]) == -value
    {
      DigitsReadBack(if value < 0 then -value else value);
      if value < 0 { assert Number(value)[1..] == Digits(-value); }
      NumberOneLine(value);
      assert OneLine("sleep ");
      AppendString("sleep " + Number(value));
    }

    method Boot()
      requires Valid()
      modifies this
      ensures Did(Append("boot"))
    {
      AppendString("boot");
    }

    method Dhcp()
      requires Valid()
      modifies this
      ensures Did(Append("dhcp"))
    {
      AppendString("dhcp");
    }

    method Shell()
      requires Valid()
      modifies this
      ensures Did(Append("shell"))
    {
      AppendString("shell");
    }
  }
}
