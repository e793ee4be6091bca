/**
  The dotenv printer and a reader that undoes it. The reader follows sections 2.2.1 and 2.2.2 of the
  POSIX.1-2017 Shell Command Language for the words the printer can emit: literal characters,
  backslash escapes and single-quoted strings. A character that would start an expansion, a comment,
  an operator or a double-quoted string makes it refuse the text.
*/
module Dotenv {
  import opened Prelude

  datatype Variable = Variable(key: string, value: Option<string>)

  function ValueOf(v: Variable): string {
    if v.value.Some? then v.value.value else ""
  }

  // ----- printing

  /** `s` with every single quote written as: close, escaped quote, open. */
  function Escaped(s: string): string {
    if s == [] then []
    else (if s[0] == '\'' then "'\\''" else [s[0]]) + Escaped(s[1..])
  }

  function Line(v: Variable): string {
    v.key + "='" + Escaped(ValueOf(v)) + "'\n"
  }

  function Printed(vars: seq<Variable>): string {
    if vars == [] then [] else Line(vars[0]) + Printed(vars[1..])
  }

  method ReplaceQuotes(s: string) returns (r: string)
    ensures r == Escaped(s)
  {
    r := "";
    for i := 0 to |s|
      invariant r + Escaped(s[i..]) == Escaped(s)
    {
      assert s[i..][1..] == s[i + 1..];
      r := r + if s[i] == '\'' then "'\\''" else [s[i]];
    }
    assert s[|s|..] == [];
  }

  method BuildDotenv(vars: seq<Variable>) returns (text: string)
    ensures text == Printed(vars)
  {
    if |vars| == 0 {
      return "";
    }
    text := "";
    hide Printed, Line;
    for i := 0 to |vars|
      invariant text + Printed(vars[i..]) == Printed(vars)
    {
      var value := "";
      if vars[i].value.Some? {
        value := vars[i].value.value;
      }
      ghost var before := text;
      text := text + vars[i].key;
      text := text + "='";
      var quoted := ReplaceQuotes(value);
      text := text + quoted;
      text := text + "'\n";
      LineStep(vars, i, before, quoted);
    }
    assert vars[|vars|..] == [];
    NothingPrinted();
  }

  lemma LineStep(vars: seq<Variable>, i: nat, before: string, quoted: string)
    requires i < |vars| && quoted == Escaped(ValueOf(vars[i]))
    ensures before + vars[i].key + "='" + quoted + "'\n" + Printed(vars[i + 1..]) == before + Printed(vars[i..])
  {
    assert vars[i..][0] == vars[i] && vars[i..][1..] == vars[i + 1..];
    var more := Printed(vars[i + 1..]);
    assert Printed(vars[i..]) == Line(vars[i]) + more;
    hide Printed;
    assert before + vars[i].key + "='" + quoted + "'\n" == before + Line(vars[i]);
    ConcatAssociative(before, Line(vars[i]), more);
  }

  lemma NothingPrinted()
    ensures Printed([]) == []
  {
  }

  // ----- reading

  predicate NameStart(c: char) {
    'a' <= c <= 'z' || 'A' <= c <= 'Z' || c == '_'
  }

  predicate NameChar(c: char) {
    NameStart(c) || '0' <= c <= '9'
  }

  predicate ValidName(s: string) {
    s != [] && NameStart(s[0]) && forall i :: 0 <= i < |s| ==> NameChar(s[i])
  }

  /** Characters with a meaning of their own outside quotes. */
  predicate Special(c: char) {
    c in "|&;<>()$`\" \t*?[#~"
  }

  datatype Read = Read(value: string, rest: string)

  /** The value of the word at the head of `s`, up to an unquoted newline. */
  function ReadWord(s: string, quoted: bool, read: string): Option<Read>
    decreases |s|
  {
    if s == [] then
      if quoted then None else Some(Read(read, []))
    else if quoted then
      if s[0] == '\'' then ReadWord(s[1..], false, read) else ReadWord(s[1..], true, read + [s[0]])
    else if s[0] == '\n' then
      Some(Read(read, s[1..]))
    else if s[0] == '\'' then
      ReadWord(s[1..], true, read)
    else if s[0] == '\\' then
      if |s| == 1 then None
      else if s[1] == '\n' then ReadWord(s[2..], false, read)
      else ReadWord(s[2..], false, read + [s[1]])
    else if Special(s[0]) then
      None
    else
      ReadWord(s[1..], false, read + [s[0]])
  }

  function NameLength(s: string): nat {
    if s == [] || !NameChar(s[0]) then 0 else 1 + NameLength(s[1..])
  }

  lemma {:induction false} WordShrinks(s: string, quoted: bool, read: string)
    ensures ReadWord(s, quoted, read).Some? ==> |ReadWord(s, quoted, read).value.rest| <= |s|
    decreases |s|
  {
    if s != [] {
      WordShrinks(s[1..], false, read);
      WordShrinks(s[1..], true, read);
      WordShrinks(s[1..], true, read + [s[0]]);
      WordShrinks(s[1..], false, read + [s[0]]);
      if |s| > 1 {
        WordShrinks(s[2..], false, read);
        WordShrinks(s[2..], false, read + [s[1]]);
      }
    }
  }

  lemma {:induction false} NameLengthBound(s: string)
    ensures NameLength(s) <= |s|
    ensures forall i :: 0 <= i < NameLength(s) ==> NameChar(s[i])
  {
    if s != [] && NameChar(s[0]) {
      NameLengthBound(s[1..]);
    }
  }

  /** Every assignment in `s`, in order. */
  function ReadFile(s: string): Option<seq<(string, string)>>
    decreases |s|
  {
    if s == [] then Some([])
    else
      NameLengthBound(s);
      var n := NameLength(s);
      if n == |s| || !ValidName(s[..n]) || s[n] != '=' then None
      else
        WordShrinks(s[n + 1..], false, []);
        var word := ReadWord(s[n + 1..], false, []);
        if word == None then None
        else
          var others := ReadFile(word.value.rest);
          if others == None then None else Some([(s[..n], word.value.value)] + others.value)
  }

  // ----- reading what was printed

  function Expected(vars: seq<Variable>): seq<(string, string)> {
    seq(|vars|, (i: nat) requires i < |vars| => (vars[i].key, ValueOf(vars[i])))
  }

  lemma {:induction false} ReadEscaped(value: string, rest: string, read: string)
    ensures ReadWord(Escaped(value) + "'\n" + rest, true, read) == Some(Read(read + value, rest))
  {
    var text := Escaped(value) + "'\n" + rest;
    if value == [] {
      assert text[0] == '\'' && text[1..][0] == '\n' && text[1..][1..] == rest;
      assert read + value == read;
    } else {
      var others := Escaped(value[1..]) + "'\n" + rest;
      EscapedHead(value, rest);
      hide *;
      ReadEscaped(value[1..], rest, read + [value[0]]);
      assert read + [value[0]] + value[1..] == read + value;
      if value[0] == '\'' {
        QuoteReadsBack(text, others, read);
      } else {
        PlainReadsBack(text, others, read);
      }
    }
  }

  lemma EscapedHead(value: string, rest: string)
    requires value != []
    ensures var others := Escaped(value[1..]) + "'\n" + rest;
            Escaped(value) + "'\n" + rest == (if value[0] == '\'' then "'\\''" else [value[0]]) + others
  {
  }

  lemma PlainReadsBack(text: string, others: string, read: string)
    requires text != [] && text[0] != '\'' && text == [text[0]] + others
    ensures ReadWord(text, true, read) == ReadWord(others, true, read + [text[0]])
  {
    assert text[1..] == others;
  }

  lemma QuoteReadsBack(text: string, others: string, read: string)
    requires text == "'\\''" + others
    ensures ReadWord(text, true, read) == ReadWord(others, true, read + ['\''])
  {
    var one := text[1..];
    assert one[0] == '\\' && one[1] == '\'' && one[2..][0] == '\'' && one[2..][1..] == others;
    assert ReadWord(text, true, read) == ReadWord(one, false, read);
    assert ReadWord(one, false, read) == ReadWord(one[2..], false, read + ['\'']);
    assert ReadWord(one[2..], false, read + ['\'']) == ReadWord(others, true, read + ['\'']);
  }

  lemma {:induction false} NameEnds(key: string, more: string)
    requires forall i :: 0 <= i < |key| ==> NameChar(key[i])
    requires more != [] && !NameChar(more[0])
    ensures NameLength(key + more) == |key|
  {
    if key == [] {
      assert key + more == more;
    } else {
      assert (key + more)[1..] == key[1..] + more;
      NameEnds(key[1..], more);
    }
  }

  lemma ReadLine(v: Variable, rest: string)
    requires ValidName(v.key)
    ensures var others := ReadFile(rest);
            ReadFile(Line(v) + rest) ==
              if others == None then None else Some([(v.key, ValueOf(v))] + others.value)
  {
    var text := Line(v) + rest;
    LineSplits(v, rest);
    var word := text[|v.key| + 1..];
    assert ReadWord(word, false, []) == ReadWord(word[1..], true, []);
    ReadEscaped(ValueOf(v), rest, []);
    assert [] + ValueOf(v) == ValueOf(v);
    hide ReadWord, Escaped, Line, NameLength;
  }

  lemma LineSplits(v: Variable, rest: string)
    requires ValidName(v.key)
    ensures var text := Line(v) + rest;
            && NameLength(text) == |v.key| < |text| && text[..|v.key|] == v.key && text[|v.key|] == '='
            && |text| > |v.key| + 1 && text[|v.key| + 1] == '\''
            && text[|v.key| + 1..][1..] == Escaped(ValueOf(v)) + "'\n" + rest
  {
    var text := Line(v) + rest;
    var more := "='" + Escaped(ValueOf(v)) + "'\n" + rest;
    assert text == v.key + more;
    NameEnds(v.key, more);
    hide Line, NameLength, Escaped;
    assert text[|v.key| + 1..] == more[1..] == ['\''] + (Escaped(ValueOf(v)) + "'\n" + rest);
  }

  lemma {:induction false} KeysAreNames(s: string)
    ensures ReadFile(s).Some? ==> forall p <- ReadFile(s).value :: ValidName(p.0)
    decreases |s|
  {
    if ReadFile(s).Some? && s != [] {
      NameLengthBound(s);
      var n := NameLength(s);
      WordShrinks(s[n + 1..], false, []);
      KeysAreNames(ReadWord(s[n + 1..], false, []).value.rest);
    }
  }

  lemma ExpectedCons(vars: seq<Variable>)
    requires vars != []
    ensures Expected(vars) == [(vars[0].key, ValueOf(vars[0]))] + Expected(vars[1..])
  {
  }

  lemma {:induction false} ReadsBackNames(vars: seq<Variable>)
    requires forall i :: 0 <= i < |vars| ==> ValidName(vars[i].key)
    ensures ReadFile(Printed(vars)) == Some(Expected(vars))
  {
    if vars == [] {
      assert Printed(vars) == [] && Expected(vars) == [];
    } else {
      var tail := vars[1..];
      assert Printed(vars) == Line(vars[0]) + Printed(tail);
      ExpectedCons(vars);
      hide *;
      assert forall i :: 0 <= i < |tail| ==> tail[i] == vars[i + 1];
      ReadsBackNames(tail);
      ReadLine(vars[0], Printed(tail));
    }
  }

  /** A shell reads back exactly the keys and values that were printed, provided every key is a name. */
  lemma RoundTrip(vars: seq<Variable>)
    ensures ReadFile(Printed(vars)) == Some(Expected(vars)) <==> forall v <- vars :: ValidName(v.key)
  {
    if forall v <- vars :: ValidName(v.key) {
      ReadsBackNames(vars);
    } else if ReadFile(Printed(vars)) == Some(Expected(vars)) {
      KeysAreNames(Printed(vars));
      forall i | 0 <= i < |vars|
        ensures ValidName(vars[i].key)
      {
        assert Expected(vars)[i] in Expected(vars);
      }
      assert false;
    }
  }
}
