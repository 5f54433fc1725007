/**
 The danger classifier: a command needs confirmation before it runs when
 one of a fixed list of patterns occurs anywhere in its lower-cased,
 stripped text.
 */
module Danger {
  import opened Text

  /** The denylist, in the order the program declares it. */
  const Patterns: seq<string> := [
    "rm", "rmdir", "del", "format", "fdisk", "mkfs", "dd", "kill", "killall",
    "sudo rm", "sudo rmdir", "chmod 777", "chown", "passwd", "userdel",
    "shutdown", "reboot"
  ]

  /** `is_dangerous_command`: some pattern is a substring of the command,
      lower-cased and then stripped. */
  predicate IsDangerous(command: string) {
    exists p :: p in Patterns && IsSubstring(p, Strip(Lower(command)))
  }

  /** The patterns that no other pattern occurs in. Every other pattern
      contains one of these, so they alone decide the classification. */
  const Roots: seq<string> := [
    "rm", "del", "fdisk", "mkfs", "dd", "kill", "chmod 777", "chown",
    "passwd", "shutdown", "reboot"
  ]

  lemma PatternsTrimmed()
    ensures forall p :: p in Patterns ==> Trimmed(p)
  {
  }

  /** The strip is irrelevant: a command is dangerous exactly when a
      pattern occurs in its lower-cased text. */
  lemma DangerousIgnoresStrip(command: string)
    ensures IsDangerous(command) <==> exists p :: p in Patterns && IsSubstring(p, Lower(command))
  {
    PatternsTrimmed();
    forall p | p in Patterns
      ensures IsSubstring(p, Strip(Lower(command))) <==> IsSubstring(p, Lower(command))
    {
      SubstringOfStrip(p, Lower(command));
    }
  }

  /** Text added before or after a dangerous command leaves it dangerous. */
  lemma DangerousWidened(before: string, command: string, after: string)
    requires IsDangerous(command)
    ensures IsDangerous(before + command + after)
  {
    DangerousIgnoresStrip(command);
    var p :| p in Patterns && IsSubstring(p, Lower(command));
    SubstringWidened(p, Lower(command), Lower(before), Lower(after));
    LowerAppend(before + command, after);
    LowerAppend(before, command);
    DangerousIgnoresStrip(before + command + after);
  }

  /** Each pattern contains a root pattern: "rmdir", "format", "sudo rm"
      and "sudo rmdir" contain "rm", "killall" contains "kill" and
      "userdel" contains "del". */
  lemma PatternsContainRoots()
    ensures forall p :: p in Patterns ==> exists q :: q in Roots && IsSubstring(q, p)
  {
    forall p | p in Patterns ensures exists q :: q in Roots && IsSubstring(q, p) {
      if p in Roots {
        assert OccursAt(p, p, 0);
        assert IsSubstring(p, p);
      } else if p == "rmdir" || p == "format" || p == "sudo rm" || p == "sudo rmdir" {
        assert OccursAt("rm", "rmdir", 0);
        assert OccursAt("rm", "format", 2);
        assert OccursAt("rm", "sudo rm", 5);
        assert OccursAt("rm", "sudo rmdir", 5);
        assert "rm" in Roots && IsSubstring("rm", p);
      } else if p == "killall" {
        assert OccursAt("kill", p, 0);
        assert "kill" in Roots && IsSubstring("kill", p);
      } else {
        assert p == "userdel";
        assert OccursAt("del", p, 4);
        assert "del" in Roots && IsSubstring("del", p);
      }
    }
  }

  /** The classification is decided by the root patterns alone. */
  lemma DangerousIffRoot(command: string)
    ensures IsDangerous(command) <==> exists q :: q in Roots && IsSubstring(q, Lower(command))
  {
    DangerousIgnoresStrip(command);
    var t := Lower(command);
    if p :| p in Patterns && IsSubstring(p, t) {
      PatternsContainRoots();
      var q :| q in Roots && IsSubstring(q, p);
      SubstringTransitive(q, p, t);
    }
    if q :| q in Roots && IsSubstring(q, t) {
      assert q in Patterns;
    }
  }

  /** Matching ignores letter case: the shouting "SHUTDOWN -h now" is caught. */
  lemma ShoutedShutdownIsDangerous()
    ensures IsDangerous("SHUTDOWN -h now")
  {
    var t := Lower("SHUTDOWN -h now");
    assert t[..8] == "shutdown";
    assert OccursAt("shutdown", t, 0);
    assert "shutdown" in Patterns && IsSubstring("shutdown", t);
    DangerousIgnoresStrip("SHUTDOWN -h now");
  }

  /** Substring matching also flags harmless commands: "ls firmware"
      contains "rm". */
  lemma FirmwareIsDangerous()
    ensures IsDangerous("ls firmware")
  {
    var t := Lower("ls firmware");
    assert t[5..7] == "rm";
    assert OccursAt("rm", t, 5);
    assert "rm" in Patterns && IsSubstring("rm", t);
    DangerousIgnoresStrip("ls firmware");
  }

  /** "ls" contains no pattern and runs without confirmation. */
  lemma ListingIsSafe()
    ensures !IsDangerous("ls")
  {
    assert Lower("ls") == "ls" by {
      assert Lower("ls")[0] == 'l';
      assert Lower("ls")[1] == 's';
    }
    forall p | p in Patterns ensures !IsSubstring(p, "ls") {
      if |p| == 2 {
        assert p == "rm" || p == "dd";
        SubstringOfEqualLength(p, "ls");
      } else {
        SubstringOfShorter(p, "ls");
      }
    }
    DangerousIgnoresStrip("ls");
  }
}
