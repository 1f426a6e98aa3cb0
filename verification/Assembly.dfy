/** Whole assembly programs (assembler.py): lines to labels and numbered
    commands, commands to words. */
module Assembly {
  import opened Options
  import opened Bits
  import opened Isa
  import opened Tkb
  import opened Agreement

  // ----------------------------------------------------------------------- text

  predicate IsSpace(c: char) { c == ' ' || c == '\t' || c == '\n' || c == '\r' }

  /** `strip` */
  function Strip(s: string): string
    decreases |s|
  {
    if s == "" then s
    else if IsSpace(s[0]) then Strip(s[1..])
    else if IsSpace(s[|s| - 1]) then Strip(s[..|s| - 1])
    else s
  }

  predicate IsUpper(c: char) { 'A' <= c <= 'Z' }

  function LowerChar(c: char): (l: char)
    ensures !IsUpper(l) && (!IsUpper(c) ==> l == c)
  {
    if IsUpper(c) then ('a' as int + (c as int - 'A' as int)) as char else c
  }

  function Lower(s: string): (l: string)
    ensures |l| == |s| && forall i | 0 <= i < |s| :: l[i] == LowerChar(s[i])
  {
    if s == "" then "" else [LowerChar(s[0])] + Lower(s[1..])
  }

  predicate IsGap(c: char) { c == ',' || c == ' ' }

  /** Where the first gap is, or the end. */
  function FirstGap(s: string): (n: nat)
    ensures n <= |s| && (forall i | 0 <= i < n :: !IsGap(s[i])) && (n < |s| ==> IsGap(s[n]))
  {
    if s == "" || IsGap(s[0]) then 0 else 1 + FirstGap(s[1..])
  }

  /** The non-empty pieces between commas and spaces. */
  function Tokens(s: string): seq<string>
    decreases |s|
  {
    var n := FirstGap(s);
    if n == |s| then (if s == "" then [] else [s])
    else if n == 0 then Tokens(s[1..])
    else [s[..n]] + Tokens(s[n + 1..])
  }

  /** Where the first '/' is, or the end. */
  function Slash(s: string): (n: nat)
    ensures n <= |s| && (forall i | 0 <= i < n :: s[i] != '/') && (n < |s| ==> s[n] == '/')
  {
    if s == "" || s[0] == '/' then 0 else 1 + Slash(s[1..])
  }

  // ---------------------------------------------------------------- first round

  predicate IsComment(cmd: string) { cmd == "" || cmd[0] == '#' || cmd[0] == '/' }
  predicate IsLabel(cmd: string) { !IsComment(cmd) && cmd[0] == '.' }
  predicate IsCode(cmd: string) { !IsComment(cmd) && cmd[0] != '.' }

  function CodeText(cmd: string): string {
    var n := Slash(cmd);
    if n < |cmd| then Strip(cmd[..n]) else cmd
  }

  /** The commands of a program, in order. */
  function Listing(cmds: seq<string>): (l: seq<string>)
    decreases |cmds|
  {
    if cmds == [] then []
    else
      var before, last := Listing(cmds[..|cmds| - 1]), cmds[|cmds| - 1];
      if IsCode(last) then before + [CodeText(last)] else before
  }

  /** The line of the last definition of a label. */
  predicate LastDefinition(cmds: seq<string>, name: string, k: nat) {
    && k < |cmds| && IsLabel(cmds[k]) && cmds[k] == name
    && forall j | k < j < |cmds| :: cmds[j] != name
  }

  /** Labels stand for the number of the command after their last definition. */
  ghost predicate LabelsOf(cmds: seq<string>, labels: Labels) {
    && (forall l :: l in labels <==> IsLabel(l) && l in cmds)
    && (forall l, k: nat | LastDefinition(cmds, l, k) :: l in labels && labels[l] == |Listing(cmds[..k])|)
  }

  /** `Assembler` */
  class Assembler {
    var labels: Labels
    var pc: nat
    var programStack: seq<(nat, string)>

    /** What the first round has built from the lines read so far. */
    ghost predicate HasRead(cmds: seq<string>)
      reads this
    {
      && pc == |Listing(cmds)|
      && |programStack| == pc
      && (forall i | 0 <= i < pc :: programStack[i] == (i, Listing(cmds)[i]))
      && LabelsOf(cmds, labels)
    }

    constructor ()
      ensures HasRead([])
    {
      labels := map[];
      pc := 0;
      programStack := [];
    }

    /** `processLabels` */
    method ProcessLabels(cmd: string, ghost seen: seq<string>)
      requires HasRead(seen)
      modifies this
      ensures HasRead(seen + [cmd])
    {
      ListingSnoc(seen, cmd);
      LastSnoc(seen, cmd);
      if cmd == "" || cmd[0] == '#' || cmd[0] == '/' { return; }
      if cmd[0] == '.' {
        labels := labels[cmd := pc];
      } else {
        var n := Slash(cmd);
        if n < |cmd| {
          programStack := programStack + [(pc, Strip(cmd[..n]))];
        } else {
          programStack := programStack + [(pc, cmd)];
        }
        pc := pc + 1;
      }
    }

    /** `firstRoundProcessing`, over the lines of the file. */
    method FirstRound(lines: seq<string>)
      requires HasRead([])
      modifies this
      ensures HasRead(Stripped(lines))
    {
      for i := 0 to |lines|
        invariant HasRead(Stripped(lines)[..i])
      {
        assert Stripped(lines)[..i + 1] == Stripped(lines)[..i] + [Strip(lines[i])];
        ProcessLabels(Strip(lines[i]), Stripped(lines)[..i]);
      }
      assert Stripped(lines)[..|lines|] == Stripped(lines);
    }

    /** `processProgram`: the words in binary, one per command. */
    method ProcessProgram() returns (words: seq<string>)
      ensures |words| == |programStack|
      ensures forall i | 0 <= i < |words| ::
                words[i] == ProcessCmd(programStack[i].0, programStack[i].1, labels)
    {
      words := [];
      for i := 0 to |programStack|
        invariant |words| == i
        invariant forall j | 0 <= j < i :: words[j] == ProcessCmd(programStack[j].0, programStack[j].1, labels)
      {
        words := words + [ProcessCmd(programStack[i].0, programStack[i].1, labels)];
      }
    }

    /** `compile`: both rounds. */
    method Compile(lines: seq<string>) returns (words: seq<string>)
      requires HasRead([])
      modifies this
      ensures HasRead(Stripped(lines)) && Emitted(Stripped(lines), labels, words)
    {
      FirstRound(lines);
      words := ProcessProgram();
    }
  }

  function Stripped(lines: seq<string>): seq<string> {
    seq(|lines|, i requires 0 <= i < |lines| => Strip(lines[i]))
  }

  // --------------------------------------------------------------- second round

  /** The encoder a mnemonic selects, and whether it asks for atomicity. */
  function Select(name: string): (string, bool)
    requires name != ""
  {
    var base := name[..|name| - 1];
    if name[|name| - 1] == 'a' && base in CMD_TABLE then (base, true) else (name, false)
  }

  /** The command of one line, and its atomic bit; none when any check fails. */
  function ReadCmd(pc: nat, text: string, labels: Labels): Option<(Command, bool)> {
    var name := Lower(text[..FirstGap(text)]);
    var toks := Tokens(Lower(text));
    if name == "" || toks == [] then None
    else
      var (base, atomic) := Select(name);
      var c := Read(base, toks[1..], labels, pc);
      if c.None? then None else Some((c.value, atomic))
  }

  /** `processCmd`: an error leaves an empty encoding, to which the atomic digit 0
      is appended. */
  function ProcessCmd(pc: nat, text: string, labels: Labels): string {
    match ReadCmd(pc, text, labels)
    case None => "0"
    case Some((c, atomic)) => Encode(c, atomic)
  }

  lemma ListingSnoc(cmds: seq<string>, cmd: string)
    ensures Listing(cmds + [cmd]) == Listing(cmds) + if IsCode(cmd) then [CodeText(cmd)] else []
  {
    assert (cmds + [cmd])[..|cmds|] == cmds;
  }

  lemma LastSnoc(cmds: seq<string>, cmd: string)
    ensures forall l, k: nat | LastDefinition(cmds + [cmd], l, k) ::
              if l == cmd then k == |cmds| else LastDefinition(cmds, l, k)
    ensures forall k: nat | k <= |cmds| :: (cmds + [cmd])[..k] == cmds[..k]
  {
    var all := cmds + [cmd];
    forall l, k: nat | LastDefinition(all, l, k)
      ensures if l == cmd then k == |cmds| else LastDefinition(cmds, l, k)
    {
      assert all[|cmds|] == cmd;
      forall j | k < j < |cmds| ensures cmds[j] != l { assert all[j] == cmds[j]; }
    }
  }

  /** The words of a file's commands. */
  ghost predicate Emitted(cmds: seq<string>, labels: Labels, words: seq<string>) {
    && |words| == |Listing(cmds)|
    && forall i | 0 <= i < |words| :: words[i] == ProcessCmd(i, Listing(cmds)[i], labels)
  }

  // ------------------------------------------------------------------ properties

  /** The suffix works for every mnemonic but shra, and is never mistaken for part
      of one. */
  lemma AtomicSuffixExact(name: string)
    requires name in MNEMONICS
    ensures Select(name) == (name, false)
    ensures Select(name + "a") == (name, true) <==> name != "shra"
    ensures name == "shra" ==> Select("shraa").0 !in MNEMONICS
  {
    assert (name + "a")[..|name|] == name;
    assert "shra"[..3] == "shr";
    assert "shraa"[..4] == "shra";
    if name == "shra" { assert name + "a" == "shraa"; }
  }

  /** A command that cannot be read assembles to a word that does nothing. */
  lemma UnreadableIdles(pc: nat, text: string, labels: Labels, at: Word, x: Reg -> Word)
    requires ReadCmd(pc, text, labels).None?
    ensures Val(ProcessCmd(pc, text, labels)) == 0
    ensures !AtomicBit(0) && Performed(Decode(0), at, x) == Effect(Keep, Inc(at))
  {
    OneDigit('0');
    IdleWord();
  }

  /** A label stands for the number of the first command after its last definition. */
  lemma LabelNamesNext(cmds: seq<string>, k: nat, j: nat)
    requires k < j < |cmds| && IsLabel(cmds[k]) && IsCode(cmds[j])
    requires forall i | k < i < j :: !IsCode(cmds[i])
    ensures |Listing(cmds[..k])| < |Listing(cmds)|
    ensures Listing(cmds)[|Listing(cmds[..k])|] == CodeText(cmds[j])
  {
    SameListing(cmds, k, j);
    assert cmds[..j + 1] == cmds[..j] + [cmds[j]];
    ListingSnoc(cmds[..j], cmds[j]);
    ListingPrefix(cmds, j + 1);
  }

  lemma {:induction false} SameListing(cmds: seq<string>, k: nat, j: nat)
    requires k < j <= |cmds| && !IsCode(cmds[k]) && forall i | k < i < j :: !IsCode(cmds[i])
    ensures Listing(cmds[..k]) == Listing(cmds[..j])
    decreases j
  {
    assert cmds[..j] == cmds[..j - 1] + [cmds[j - 1]];
    ListingSnoc(cmds[..j - 1], cmds[j - 1]);
    if k < j - 1 { SameListing(cmds, k, j - 1); }
  }

  lemma {:induction false} ListingPrefix(cmds: seq<string>, n: nat)
    requires n <= |cmds|
    ensures Listing(cmds[..n]) <= Listing(cmds)
    decreases |cmds| - n
  {
    if n == |cmds| {
      assert cmds[..n] == cmds;
    } else {
      ListingPrefix(cmds, n + 1);
      assert cmds[..n + 1] == cmds[..n] + [cmds[n]];
      ListingSnoc(cmds[..n], cmds[n]);
    }
  }

  /** A label is within reach of a jump exactly when it is less than 2048 away from
      the next command, in either direction. */
  lemma ReachExact(name: string, args: seq<string>, labels: Labels, pc: nat)
    requires name in {"beq", "bneq", "blt", "jalr"} && |args| == 3 && args[2] in labels
    ensures Read(name, args, labels, pc).Some? <==>
              RegNum(args[0]).Some? && RegNum(args[1]).Some? && -2048 < labels[args[2]] - (pc + 1) < 2048
  {
    hide RegNum, Immediate;
    Powers();
  }

  lemma ReachExactJal(args: seq<string>, labels: Labels, pc: nat)
    requires |args| == 2 && args[1] in labels
    ensures Read("jal", args, labels, pc).Some? <==>
              RegNum(args[0]).Some? && -2048 < labels[args[1]] - (pc + 1) < 2048
  {
    hide RegNum, Immediate;
    Powers();
  }

  // Where a program's words are fetched from: commands are numbered from START_PC.
  function At(i: int): Word { ToWord(START_PC + i) }

  /** A branch to a label makes the processor fetch the labelled command next when
      the condition holds, and the following one otherwise. */
  lemma BranchReachesLabel(name: string, args: seq<string>, labels: Labels, i: nat, atomic: bool, x: Reg -> Word)
    requires name in {"beq", "bneq", "blt"} && |args| == 3 && args[2] in labels
    requires Read(name, args, labels, i).Some? && |Encode(Read(name, args, labels, i).value, atomic)| == 32
    ensures var c := Read(name, args, labels, i).value;
            var w := Val(Encode(c, atomic));
            && c.BranchCmd? && c.ra < 32 && c.rb < 32 && w < MODULUS
            && c.cond == (if name == "beq" then Eq else if name == "bneq" then Neq else Lt)
            && Performed(Decode(w), At(i), x) ==
                 Effect(Keep, At(if Holds(c.cond, x(c.ra), x(c.rb)) then labels[args[2]] else i + 1))
  {
    BranchRead(name, args, labels, i);
    ReadRanges(name, args, labels, i);
    hide Read, Encode, Ranges;
    var c := Read(name, args, labels, i).value;
    WidthExact(c, atomic);
    BranchGoes(c, i, labels[args[2]], atomic, x);
  }

  lemma BranchGoes(c: Command, i: nat, target: nat, atomic: bool, x: Reg -> Word)
    requires Fits(c) && c.BranchCmd? && c.imm == target - i - 1
    ensures var w := Val(Encode(c, atomic));
            && c.ra < 32 && c.rb < 32 && w < MODULUS
            && Performed(Decode(w), At(i), x)
               == Effect(Keep, At(if Holds(c.cond, x(c.ra), x(c.rb)) then target else i + 1))
  {
    hide Encode, Decode, Performed, Holds;
    AssembledMeans(c, atomic, At(i), x);
    assert ToWord(At(i) + 1 + c.imm) == At(target) by { NextAt(i, c.imm); }
    assert Inc(At(i)) == At(i + 1) by { NextAt(i, 0); }
  }

  lemma BranchRead(name: string, args: seq<string>, labels: Labels, i: nat)
    requires name in {"beq", "bneq", "blt"} && |args| == 3 && args[2] in labels
    requires Read(name, args, labels, i).Some?
    ensures var c := Read(name, args, labels, i).value;
            && c.BranchCmd? && c.imm == labels[args[2]] - i - 1
            && c.cond == (if name == "beq" then Eq else if name == "bneq" then Neq else Lt)
  {
    hide RegNum, Immediate, InField;
  }

  /** A jump-and-link to a label makes the processor fetch the labelled command next. */
  lemma JalReachesLabel(args: seq<string>, labels: Labels, i: nat, atomic: bool, x: Reg -> Word)
    requires |args| == 2 && args[1] in labels
    requires Read("jal", args, labels, i).Some? && |Encode(Read("jal", args, labels, i).value, atomic)| == 32
    ensures var c := Read("jal", args, labels, i).value;
            var w := Val(Encode(c, atomic));
            && c.Jal? && w < MODULUS
            && Performed(Decode(w), At(i), x) == Effect(Put(c.rd, At(i)), At(labels[args[1]]))
  {
    hide RegNum, Immediate, Encode, Decode, Performed;
    var c := Read("jal", args, labels, i).value;
    ReadRanges("jal", args, labels, i);
    WidthExact(c, atomic);
    AssembledMeans(c, atomic, At(i), x);
    NextAt(i, c.imm);
  }

  lemma NextAt(i: int, v: int)
    ensures ToWord(At(i) + 1 + v) == At(i + 1 + v)
    ensures Inc(At(i)) == At(i + 1)
  {
    AddMod(1 + v, START_PC + i);
    AddMod(1, START_PC + i);
  }

  // Which labels can be used at all.

  predicate Within(s: string, t: string) { forall c | c in s :: c in t }

  predicate Plainly(s: string) {
    forall i | 0 <= i < |s| :: !('A' <= s[i] <= 'Z') && s[i] != ',' && s[i] != ' ' && s[i] != '/'
  }

  lemma {:induction false} TokenChars(s: string, k: nat)
    requires k < |Tokens(s)|
    ensures Tokens(s)[k] != "" && Within(Tokens(s)[k], s) && forall c | c in Tokens(s)[k] :: !IsGap(c)
    decreases |s|
  {
    var n := FirstGap(s);
    if n < |s| {
      if n == 0 { TokenChars(s[1..], k); }
      else if k > 0 { TokenChars(s[n + 1..], k - 1); }
    }
  }

  lemma {:induction false} StripChars(s: string)
    ensures Within(Strip(s), s)
    decreases |s|
  {
    if s != "" {
      if IsSpace(s[0]) { StripChars(s[1..]); } else if IsSpace(s[|s| - 1]) { StripChars(s[..|s| - 1]); }
    }
  }

  /** A name can be an operand exactly when it has no capital letter, comma, space
      or slash: commands are lower-cased and cut at the first slash, while label
      lines are taken as they stand. */
  lemma UsableLabelExact(name: string)
    ensures (exists cmd: string, k: nat :: IsCode(cmd) && IsOperand(cmd, k, name)) <==> name != "" && Plainly(name)
  {
    forall cmd: string, k: nat | IsCode(cmd) && IsOperand(cmd, k, name)
      ensures name != "" && Plainly(name)
    {
      OperandIsPlain(cmd, k);
    }
    if name != "" && Plainly(name) {
      var cmd := "x " + name;
      assert cmd[0] == 'x' && cmd[1] == ' ' && cmd[2..] == name;
      assert Slash(cmd) == |cmd|;
      forall i | 0 <= i < |cmd| ensures Lower(cmd)[i] == cmd[i] {}
      assert Lower(cmd) == cmd;
      assert FirstGap(cmd) == 1;
      assert Tokens(cmd) == ["x"] + Tokens(name);
      assert FirstGap(name) == |name|;
      assert IsOperand(cmd, 1, name);
    }
  }

  predicate IsOperand(cmd: string, k: nat, name: string) {
    var toks := Tokens(Lower(CodeText(cmd)));
    k < |toks| && toks[k] == name
  }

  lemma OperandIsPlain(cmd: string, k: nat)
    requires k < |Tokens(Lower(CodeText(cmd)))|
    ensures var tok := Tokens(Lower(CodeText(cmd)))[k]; tok != "" && Plainly(tok)
  {
    var text := CodeText(cmd);
    var low := Lower(text);
    var tok := Tokens(low)[k];
    TokenChars(low, k);
    assert Within(text, cmd[..Slash(cmd)]) by { StripChars(cmd[..Slash(cmd)]); }
    forall i | 0 <= i < |tok| ensures !('A' <= tok[i] <= 'Z') && !IsGap(tok[i]) && tok[i] != '/' {
      assert tok[i] in low;
      var j :| 0 <= j < |low| && low[j] == tok[i];
      assert text[j] in text;
      assert text[j] in cmd[..Slash(cmd)];
    }
  }
}
