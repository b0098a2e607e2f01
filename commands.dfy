/** How a message in the staff channel becomes a command: the prefix is cut
    off, the rest is stripped of surrounding whitespace and split at its first
    space into a command name and the command's contents. */
module Commands {
  import opened Builtins

  /** What the parse of a staff-channel message yields. `MissingArgument` is
      the `IndexError` raised when the stripped text holds no space: nothing
      is done for such a message. */
  datatype Parsed =
    | NotCommand
    | MissingArgument(name: string)
    | Command(name: string, contents: string)

  /** Parses a staff-channel message against the configured prefix. */
  function ParseCommand(content: string, prefix: string): (p: Parsed)
    ensures p.NotCommand? <==> !(prefix <= content)
    ensures p.MissingArgument? ==>
      && prefix <= content
      && p.name == Strip(content[|prefix|..])
      && ' ' !in p.name
    ensures p.Command? ==>
      && prefix <= content
      && Strip(content[|prefix|..]) == p.name + " " + p.contents
      && ' ' !in p.name
  {
    if !(prefix <= content) then NotCommand
    else
      var parts := SplitOnce(Strip(content[|prefix|..]), ' ');
      if |parts| == 1 then MissingArgument(parts[0]) else Command(parts[0], parts[1])
  }

  /** The id an `ignore` or `unignore` command acts on: the contents up to
      their first space. */
  function FirstToken(contents: string): (id: string)
    ensures id <= contents && ' ' !in id
    ensures id == contents || contents[|id|] == ' '
  {
    SplitOnce(contents, ' ')[0]
  }

  /** A command written as prefix, name, one space and contents parses back
      to that name and those contents, provided the name is a non-empty
      space-free word and the contents do not end in whitespace. */
  lemma {:induction false} ParseCommandRoundTrip(prefix: string, name: string, contents: string)
    requires name != [] && !IsSpace(name[0]) && ' ' !in name
    requires contents != [] && !IsSpace(contents[|contents| - 1])
    ensures ParseCommand(prefix + name + " " + contents, prefix) == Command(name, contents)
  {
    var content := prefix + name + " " + contents;
    var body := name + [' '] + contents;
    assert content == prefix + body;
    assert prefix <= content && content[|prefix|..] == body;
    assert body[0] == name[0] && body[|body| - 1] == contents[|contents| - 1];
    StripTrimmed(body);
    SplitOnceJoin(name, ' ', contents);
    assert SplitOnce(Strip(content[|prefix|..]), ' ') == [name, contents];
  }

  /** A command name with no argument raises, even when it is followed by
      spaces: `strip()` removes them before the split. */
  lemma {:induction false} BareCommandRaises(prefix: string, name: string, padding: nat)
    requires name != [] && forall i :: 0 <= i < |name| ==> !IsSpace(name[i])
    ensures ParseCommand(prefix + name + Spaces(padding), prefix) == MissingArgument(name)
  {
    var content := prefix + name + Spaces(padding);
    assert content[|prefix|..] == name + Spaces(padding);
    StripSpaces(name, padding);
  }

  /** `n` spaces. */
  function Spaces(n: nat): (s: string)
    ensures |s| == n && forall i :: 0 <= i < n ==> s[i] == ' '
  {
    if n == 0 then [] else Spaces(n - 1) + " "
  }

  lemma {:induction false} StripSpaces(word: string, n: nat)
    requires word != [] && forall i :: 0 <= i < |word| ==> !IsSpace(word[i])
    ensures Strip(word + Spaces(n)) == word
  {
    var s := word + Spaces(n);
    StripCuts(s);
    var k := |s| - |StripLeft(s)|;
    var r := Strip(s);
    assert !IsSpace(s[0]);
    assert k == 0;
    assert r == s[..|r|];
    assert !IsSpace(s[|word| - 1]);
    assert r[|r| - 1] == s[|r| - 1];
  }
}
