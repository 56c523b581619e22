/** The indentation-tracking text accumulator (internal/builder/builder.go). */
module Builder {

  /** One indentation unit: four spaces. */
  const Unit: string := "    "

  /** The text `Writeln` puts before a line at indentation level `n`. */
  function Indentation(n: nat): (r: string)
  {
    if n == 0 then "" else Indentation(n - 1) + Unit
  }

  /** Indentation is exactly four spaces per level and nothing else. */
  lemma {:induction false} IndentationShape(n: nat)
    ensures |Indentation(n)| == 4 * n
    ensures forall i :: 0 <= i < |Indentation(n)| ==> Indentation(n)[i] == ' '
  {
    if n > 0 {
      IndentationShape(n - 1);
      var p := Indentation(n - 1);
      assert Indentation(n) == p + Unit;
      forall i | 0 <= i < |Indentation(n)|
        ensures Indentation(n)[i] == ' '
      {
        if i < |p| { assert Indentation(n)[i] == p[i]; }
        else { assert Indentation(n)[i] == Unit[i - |p|]; }
      }
    }
  }

  /** What `Writeln(s)` appends at level `n`. */
  function LineAt(n: nat, s: string): string
  {
    Indentation(n) + s + "\n"
  }

  class CodeBuilder {
    var content: string
    var indentLevel: int

    /** The indentation level is never negative. */
    ghost predicate Valid()
      reads this
    {
      indentLevel >= 0
    }

    /** `NewCodeBuilder`: empty content, level 0. */
    constructor ()
      ensures Valid() && content == "" && indentLevel == 0
    {
      content := "";
      indentLevel := 0;
    }

    /** Appends `s` verbatim, without indentation or newline. */
    method Write(s: string)
      requires Valid()
      modifies this
      ensures Valid() && indentLevel == old(indentLevel)
      ensures content == old(content) + s
    {
      content := content + s;
    }

    /** Appends the current indentation, then `s`, then a newline. */
    method Writeln(s: string)
      requires Valid()
      modifies this
      ensures Valid() && indentLevel == old(indentLevel)
      ensures content == old(content) + LineAt(indentLevel, s)
    {
      var i := 0;
      while i < indentLevel
        invariant indentLevel == old(indentLevel) && 0 <= i <= indentLevel
        invariant content == old(content) + Indentation(i)
      {
        content := content + Unit;
        i := i + 1;
      }
      content := content + s;
      content := content + "\n";
    }

    /** `Printf` with the line already formatted by the caller. */
    method Printf(line: string)
      requires Valid()
      modifies this
      ensures Valid() && indentLevel == old(indentLevel)
      ensures content == old(content) + LineAt(indentLevel, line)
    {
      Writeln(line);
    }

    method Indent()
      requires Valid()
      modifies this
      ensures Valid() && content == old(content)
      ensures indentLevel == old(indentLevel) + 1
    {
      indentLevel := indentLevel + 1;
    }

    /** Decreases the level, but never below zero: at level 0 it does nothing. */
    method Dedent()
      requires Valid()
      modifies this
      ensures Valid() && content == old(content)
      ensures indentLevel == if old(indentLevel) > 0 then old(indentLevel) - 1 else 0
    {
      if indentLevel > 0 {
        indentLevel := indentLevel - 1;
      }
    }

    /** Appends a lone newline, with no indentation. */
    method Newline()
      requires Valid()
      modifies this
      ensures Valid() && indentLevel == old(indentLevel)
      ensures content == old(content) + "\n"
    {
      content := content + "\n";
    }

    /** The accumulated text. */
    function String(): (r: string)
      reads this
      ensures |r| == |content| && forall i :: 0 <= i < |r| ==> r[i] == content[i]
    {
      content
    }
  }

  /** Indent followed by Dedent restores the level and leaves the text alone. */
  method IndentThenDedent(cb: CodeBuilder)
    requires cb.Valid()
    modifies cb
    ensures cb.Valid() && cb.indentLevel == old(cb.indentLevel) && cb.content == old(cb.content)
  {
    cb.Indent();
    cb.Dedent();
  }

  /** Dedent on a fresh builder is a no-op: the level stays at zero. */
  method DedentAtZero() returns (level: int, text: string)
    ensures level == 0 && text == ""
  {
    var cb := new CodeBuilder();
    cb.Dedent();
    cb.Dedent();
    level, text := cb.indentLevel, cb.String();
  }
}
