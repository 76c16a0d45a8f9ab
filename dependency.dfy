/** The DependencyError exception raised by plugins whose library is missing. */
module Dependency {
  /** The first line: "<plugin> depends on <dep>. It can be installed with:". */
  function Header(plugin: string, depName: string): string
  {
    plugin + " depends on " + depName + ". It can be installed with:\n"
  }

  function PipLine(pypi: string): string
  {
    "    pip install " + pypi + "\n"
  }

  function AptLine(deb: string): string
  {
    "    apt-get install " + deb + "\n"
  }

  /** The install hints after the header: a pip line when a PyPI name is given, then an apt-get line when a Debian name is given. */
  function Hints(pypi: string, deb: string): string
  {
    (if pypi != "" then PipLine(pypi) else "") + (if deb != "" then AptLine(deb) else "")
  }

  /** The message text: the header, then the install hints. */
  function Message(plugin: string, depName: string, pypi: string, deb: string): (m: string)
    ensures Header(plugin, depName) <= m
    ensures m[|Header(plugin, depName)|..] == Hints(pypi, deb)
  {
    var header := Header(plugin, depName);
    assert (header + Hints(pypi, deb))[..|header|] == header;
    assert (header + Hints(pypi, deb))[|header|..] == Hints(pypi, deb);
    header + Hints(pypi, deb)
  }

  /**
   * The exception object; its text is the field msg, which __str__ returns.
   * The constructor arguments are kept as ghost fields to state what msg is.
   */
  class DependencyError {
    var msg: string
    ghost const plugin: string
    ghost const depName: string
    ghost const pypi: string
    ghost const deb: string

    /** msg is the message built from the constructor arguments. */
    ghost predicate Valid()
      reads this
    {
      msg == Message(plugin, depName, pypi, deb)
    }

    constructor (plugin: string, depName: string, pypi: string, deb: string)
      ensures this.plugin == plugin && this.depName == depName && this.pypi == pypi && this.deb == deb
      ensures Valid()
    {
      this.plugin := plugin;
      this.depName := depName;
      this.pypi := pypi;
      this.deb := deb;
      msg := Header(plugin, depName);
      if pypi != "" {
        msg := msg + PipLine(pypi);
      }
      if deb != "" {
        msg := msg + AptLine(deb);
      }
    }

    /** str(e): the header naming the plugin and the dependency, then the install hints. */
    function ToString(): (s: string)
      reads this
      requires Valid()
      ensures Header(plugin, depName) <= s
      ensures s[|Header(plugin, depName)|..] == Hints(pypi, deb)
    {
      msg
    }
  }

  /** The message always begins with the header, and is exactly the header when no package name is given. */
  lemma MessageStartsWithHeader(plugin: string, depName: string, pypi: string, deb: string)
    ensures Header(plugin, depName) <= Message(plugin, depName, pypi, deb)
    ensures Message(plugin, depName, pypi, deb)[|Header(plugin, depName)|..] == Hints(pypi, deb)
    ensures pypi == "" && deb == "" ==> Message(plugin, depName, pypi, deb) == Header(plugin, depName)
  {
  }

  /** The hints begin with a pip line exactly when a PyPI name is given: pip comes first. */
  lemma PipHintIff(pypi: string, deb: string)
    ensures PipLine(pypi) <= Hints(pypi, deb) <==> pypi != ""
  {
    var h := Hints(pypi, deb);
    if pypi == "" {
      if deb == "" {
        assert |h| == 0;
      } else {
        assert h == AptLine(deb);
        assert h[4] == 'a';
        assert PipLine(pypi)[4] == 'p';
      }
    }
  }

  /**
   * The hints hold an apt-get line exactly when a Debian name is given, and it
   * comes after the pip line: the hints are exactly as long as the lines
   * present, and with both names the pip line is followed by the apt-get line.
   */
  lemma AptHintAfterPip(pypi: string, deb: string)
    ensures |Hints(pypi, deb)| ==
      (if pypi != "" then |pypi| + 17 else 0) + (if deb != "" then |deb| + 21 else 0)
    ensures pypi != "" && deb != "" ==>
      Hints(pypi, deb)[..|pypi| + 17] == PipLine(pypi) && Hints(pypi, deb)[|pypi| + 17..] == AptLine(deb)
    ensures pypi == "" ==> Hints(pypi, deb) == (if deb != "" then AptLine(deb) else "")
  {
    assert |PipLine(pypi)| == |pypi| + 17;
    assert |AptLine(deb)| == |deb| + 21;
    if pypi != "" && deb != "" {
      var h := Hints(pypi, deb);
      assert h == PipLine(pypi) + AptLine(deb);
      assert h[..|PipLine(pypi)|] == PipLine(pypi);
      assert h[|PipLine(pypi)|..] == AptLine(deb);
    }
    if pypi == "" {
      assert Hints(pypi, deb) == "" + (if deb != "" then AptLine(deb) else "");
    }
  }
}
