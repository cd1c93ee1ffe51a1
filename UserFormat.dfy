/**
 * The string validators and formatters of 493958/ideal1.go: user details
 * checked then laid out on four lines, a log line whose level is
 * normalised to INFO, WARN or ERROR, and the guards in front of a
 * caller-supplied format template.
 */
module UserFormat {
  import opened Wrappers
  import opened GoStrings

  datatype User = User(name: string, email: string, age: int)

  const MissingFieldsMessage: string := "user name and email cannot be empty"
  const AgeMessage: string := "user age must be greater than zero"
  const EmptyTemplateMessage: string := "template string cannot be empty"
  const NoPlaceholderMessage: string := "template must contain placeholders for arguments"

  // ---------------------------------------------------------------------
  // FormatUserDetails

  /** The four lines of a user's details. */
  function DetailLines(u: User): seq<string> {
    ["User Details:", "Name: " + u.name, "Email: " + u.email, "Age: " + Itoa(u.age)]
  }

  /**
   * FormatUserDetails: the missing-field error first, then the age error;
   * otherwise the four detail lines joined by newlines.
   */
  function FormatUserDetails(u: User): (r: Result<string, string>)
    ensures u.name == "" || u.email == "" ==> r == Err(MissingFieldsMessage)
    ensures u.name != "" && u.email != "" && u.age <= 0 ==> r == Err(AgeMessage)
    ensures r.Ok? <==> u.name != "" && u.email != "" && u.age > 0
    ensures r.Ok? ==> r.value == Join(DetailLines(u), '\n')
  {
    if u.name == "" || u.email == "" then Err(MissingFieldsMessage)
    else if u.age <= 0 then Err(AgeMessage)
    else
      var formatted := "User Details:\nName: " + u.name + "\nEmail: " + u.email + "\nAge: " + Itoa(u.age);
      assert formatted == Join(DetailLines(u), '\n') by {
        var lines := DetailLines(u);
        JoinFour(lines[0], lines[1], lines[2], lines[3], '\n');
        assert lines == [lines[0], lines[1], lines[2], lines[3]];
      }
      Ok(formatted)
  }

  lemma JoinFour(a: string, b: string, c: string, d: string, sep: char)
    ensures Join([a, b, c, d], sep) == a + [sep] + b + [sep] + c + [sep] + d
  {
    assert [a, b, c, d][1..] == [b, c, d];
    assert [b, c, d][1..] == [c, d];
    assert [c, d][1..] == [d];
    assert Join([c, d], sep) == c + [sep] + d;
    assert Join([b, c, d], sep) == b + [sep] + (c + [sep] + d);
  }

  /**
   * Names and emails without a newline are recovered from the details: two
   * users with the same output are the same user.
   */
  lemma FormatUserDetailsInjective(u: User, v: User)
    requires FormatUserDetails(u).Ok? && FormatUserDetails(v).Ok?
    requires '\n' !in u.name && '\n' !in u.email && '\n' !in v.name && '\n' !in v.email
    requires u.age <= MaxInt64 && v.age <= MaxInt64
    requires FormatUserDetails(u) == FormatUserDetails(v)
    ensures u == v
  {
    NoNewline(u);
    NoNewline(v);
    SplitJoin(DetailLines(u), '\n');
    SplitJoin(DetailLines(v), '\n');
    var a := DetailLines(u);
    var b := DetailLines(v);
    assert a == b;
    assert u.name == a[1][6..] && v.name == b[1][6..];
    assert u.email == a[2][7..] && v.email == b[2][7..];
    assert Itoa(u.age) == a[3][5..] && Itoa(v.age) == b[3][5..];
    AtoiItoa(u.age);
    AtoiItoa(v.age);
  }

  /** No detail line holds a newline when the name and email do not. */
  lemma NoNewline(u: User)
    requires '\n' !in u.name && '\n' !in u.email
    ensures forall i | 0 <= i < 4 :: '\n' !in DetailLines(u)[i]
  {
    var s := Itoa(u.age);
    assert forall i | 0 <= i < |s| :: s[i] != '\n';
  }

  // ---------------------------------------------------------------------
  // LogFormattedMessage

  predicate KnownLevel(l: string) {
    l == "INFO" || l == "WARN" || l == "ERROR"
  }

  /** The level after trimming, upper-casing and falling back to INFO. */
  function Level(level: string): (l: string)
    ensures KnownLevel(l)
    ensures KnownLevel(ToUpper(TrimSpace(level))) ==> l == ToUpper(TrimSpace(level))
    ensures !KnownLevel(ToUpper(TrimSpace(level))) ==> l == "INFO"
  {
    var normalized := ToUpper(TrimSpace(level));
    if KnownLevel(normalized) then normalized else "INFO"
  }

  /** An already normalised level is left as it is. */
  lemma LevelIdempotent(level: string)
    ensures Level(Level(level)) == Level(level)
  {
    var l := Level(level);
    KnownLevelFixed(l);
  }

  /** Each of the three level words is its own normal form. */
  lemma KnownLevelFixed(l: string)
    requires KnownLevel(l)
    ensures ToUpper(TrimSpace(l)) == l
  {
    TrimUnchanged(l, IsSpace);
    assert ToUpper(l) == l;
  }

  lemma LowerInfoExample()
    ensures Level("info") == "INFO"
  {
    TrimUnchanged("info", IsSpace);
    assert ToUpper("info") == "INFO";
  }

  lemma PaddedWarnExample()
    ensures Level(" warn\n") == "WARN"
  {
    var s := " warn\n";
    assert IsSpace(s[0]) && !IsSpace(s[1]);
    assert s[1..] == "warn\n";
    var l := TrimLeft(s, IsSpace);
    assert l == TrimLeft("warn\n", IsSpace);
    assert l == "warn\n";
    assert IsSpace(l[4]) && !IsSpace(l[3]);
    assert l[..4] == "warn";
    assert TrimRight(l, IsSpace) == TrimRight("warn", IsSpace);
    assert TrimRight("warn", IsSpace) == "warn";
    assert TrimSpace(s) == "warn";
    assert ToUpper("warn") == "WARN";
  }

  lemma UnknownLevelExample()
    ensures Level("debug") == "INFO"
  {
    TrimUnchanged("debug", IsSpace);
    assert ToUpper("debug") == "DEBUG";
  }

  /** LogFormattedMessage: the bracketed level, a space, then the message. */
  function LogFormattedMessage(level: string, message: string): (r: string)
    ensures var l := Level(level); |r| == |l| + 3 + |message| && r[|l| + 3..] == message
    ensures var l := Level(level); |r| >= |l| + 3 && r[..|l| + 3] == "[" + l + "] "
  {
    "[" + Level(level) + "] " + message
  }

  /** Distinct level/message pairs give distinct log lines. */
  lemma LogFormattedMessageInjective(l1: string, m1: string, l2: string, m2: string)
    requires LogFormattedMessage(l1, m1) == LogFormattedMessage(l2, m2)
    ensures Level(l1) == Level(l2) && m1 == m2
  {
    var a := Level(l1);
    var b := Level(l2);
    var r := LogFormattedMessage(l1, m1);
    assert r[1] == a[0] && r[1] == b[0];
  }

  // ---------------------------------------------------------------------
  // HandleDynamicFormatting

  /**
   * The guards of HandleDynamicFormatting; `format` stands for Sprintf with
   * the call's arguments.
   */
  function HandleDynamicFormatting(template: string, format: string -> string): (r: Result<string, string>)
    ensures template == "" ==> r == Err(EmptyTemplateMessage)
    ensures template != "" && '%' !in template ==> r == Err(NoPlaceholderMessage)
    ensures r.Ok? <==> '%' in template
    ensures r.Ok? ==> r.value == format(template)
  {
    if template == "" then Err(EmptyTemplateMessage)
    else if '%' !in template then Err(NoPlaceholderMessage)
    else Ok(format(template))
  }

  /** The template without placeholders of the example is refused. */
  lemma NoPlaceholderExample(format: string -> string)
    ensures HandleDynamicFormatting("This string has no placeholders", format) == Err(NoPlaceholderMessage)
  {
  }
}
