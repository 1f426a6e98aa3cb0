/** From assembly text to committed state: the pipeline, loaded with the words of
    an assembled program, runs the program as it was written. */
module EndToEnd {
  import opened Options
  import opened Bits
  import opened Isa
  import opened Tkb
  import opened Agreement
  import opened Assembly
  import opened Core
  import Machine = Core
  import opened Refinement
  import opened Runs
  import opened Static

  // ----------------------------------------------------- running source commands

  type Source = seq<(Command, bool)>

  /** Commands that fill a word and neither stop nor wake a thread. */
  predicate Supported(c: Command) { Fits(c) && !c.ThreadCmd? }

  predicate Proper(src: Source) {
    && START_PC + |src| <= MODULUS
    && forall i | 0 <= i < |src| :: Supported(src[i].0)
  }

  /** Thread t takes the effect of a command; a new thread takes the lowest free
      slot and starts with fresh registers. */
  function Perform(m: Arch, t: Tid, e: Effect): Arch {
    var threads := m.threads[t := m.threads[t].(pc := e.next)];
    match e.action
    case Put(rd, v) => Arch(Store32(m.regs, t, rd, v), m.mem, threads)
    case FetchFrom(rd, addr) => Arch(Store32(m.regs, t, rd, Machine.Load(m.mem, addr)), m.mem, threads)
    case StoreTo(addr, v) => Arch(m.regs, m.mem[addr := v], threads)
    case StartThread(rd, start, arg) =>
      var n := NewTrd(m.threads);
      Arch(Store32(m.regs, t, rd, n)[n := InitBank(n, arg)], m.mem, threads[n := Csr(true, true, t, start)])
    case _ => Arch(m.regs, m.mem, threads)
  }

  function Store32(banks: Banks, t: Tid, rd: nat, v: Word): Banks {
    if rd < 32 then Written(banks, t, rd, v) else banks
  }

  function RegsOf(m: Arch, t: Tid): Reg -> Word { (r: Reg) => m.regs[t][r] }

  /** Thread t executes the command its PC points to; past the end it idles. */
  function SourceStep(src: Source, m: Arch, t: Tid): Arch
    requires Proper(src)
  {
    var pc := m.threads[t].pc;
    if START_PC <= pc < START_PC + |src|
    then Perform(m, t, Meaning(src[pc - START_PC].0, pc, RegsOf(m, t)))
    else Perform(m, t, Effect(Keep, Inc(pc)))
  }

  function SourceRun(src: Source, m: Arch, ts: seq<Tid>): Arch
    requires Proper(src)
    decreases |ts|
  {
    if ts == [] then m else SourceRun(src, SourceStep(src, m, ts[0]), ts[1..])
  }

  // -------------------------------------------------------------- the loaded image

  function WordAt(words: seq<string>, pc: Word): Word {
    if START_PC <= pc < START_PC + |words| && Val(words[pc - START_PC]) < MODULUS
    then Val(words[pc - START_PC]) else 0
  }

  /** The words of a program from START_PC on, and idle words elsewhere. */
  function Image(words: seq<string>): Program { (pc: Word) => WordAt(words, pc) }

  predicate Assembles(words: seq<string>, src: Source) {
    |words| == |src| && forall i | 0 <= i < |src| :: words[i] == Encode(src[i].0, src[i].1)
  }

  /** The one-at-a-time machine in terms of what one instruction performs. */
  lemma StepPerforms(prog: Program, m: Arch, t: Tid)
    requires Ordinary(Decode(prog(m.threads[t].pc)))
    ensures var pc := m.threads[t].pc;
            SeqStep(prog, m, t) == Perform(m, t, Performed(Decode(prog(pc)), pc, RegsOf(m, t)))
  {
    hide Execute, NextPc;
  }

  lemma SupportedIsOrdinary(c: Command, atomic: bool)
    requires Supported(c)
    ensures Val(Encode(c, atomic)) < MODULUS && Ordinary(Decode(Val(Encode(c, atomic))))
  {
    hide Fits, Encode, Val, Encodes;
    WordEncodes(c, atomic);
    EncodedOrdinary(c, Val(Encode(c, atomic)));
  }

  lemma EncodedOrdinary(c: Command, w: Word)
    requires Encodes(c, w) && !c.ThreadCmd?
    ensures Ordinary(Decode(w))
  {}

  lemma ImageAt(words: seq<string>, src: Source, pc: Word)
    requires Proper(src) && Assembles(words, src)
    ensures Image(words)(pc) == if START_PC <= pc < START_PC + |src|
                                then Val(Encode(src[pc - START_PC].0, src[pc - START_PC].1)) else 0
    ensures Ordinary(Decode(Image(words)(pc)))
  {
    hide Encode, Val, Supported, Decode, Ordinary;
    if START_PC <= pc < START_PC + |src| {
      SupportedIsOrdinary(src[pc - START_PC].0, src[pc - START_PC].1);
    } else {
      IdleIsOrdinary();
    }
  }

  lemma IdleIsOrdinary()
    ensures Ordinary(Decode(0))
    ensures forall pc: Word, x: Reg -> Word :: Performed(Decode(0), pc, x) == Effect(Keep, Inc(pc))
  {
    IdleWord();
  }

  /** One instruction of the loaded image is one command of the program. */
  lemma StepAgrees(words: seq<string>, src: Source, m: Arch, t: Tid)
    requires Proper(src) && Assembles(words, src)
    ensures SeqStep(Image(words), m, t) == SourceStep(src, m, t)
  {
    hide SeqStep, Encode, Val, Decode, Performed, Meaning, Perform, Image, Ordinary, Fits;
    var pc := m.threads[t].pc;
    ImageAt(words, src, pc);
    StepPerforms(Image(words), m, t);
    if START_PC <= pc < START_PC + |src| {
      AssembledMeans(src[pc - START_PC].0, src[pc - START_PC].1, pc, RegsOf(m, t));
    } else {
      IdleIsOrdinary();
    }
  }

  lemma {:induction false} RunAgrees(words: seq<string>, src: Source, m: Arch, ts: seq<Tid>)
    requires Proper(src) && Assembles(words, src)
    ensures SeqRun(Image(words), m, ts) == SourceRun(src, m, ts)
    decreases |ts|
  {
    hide SeqStep, SourceStep, Proper, Assembles, Image;
    if ts != [] {
      StepAgrees(words, src, m, ts[0]);
      RunAgrees(words, src, SourceStep(src, m, ts[0]), ts[1..]);
    }
  }

  lemma ImageIsOrdinary(words: seq<string>, src: Source)
    requires Proper(src) && Assembles(words, src)
    ensures OrdinaryProgram(Image(words))
  {
    hide Proper, Assembles, Decode, Ordinary;
    forall pc: Word ensures Ordinary(Decode(Image(words)(pc))) { ImageAt(words, src, pc); }
  }

  /** From reset, through every interleaving, stall, flush and miss of a clean run,
      the pipeline's registers, memory and threads are those of executing the
      program's commands as they are written. */
  lemma PipelineRunsSource(words: seq<string>, src: Source, first: Input, ins: seq<Input>)
    requires Proper(src) && Assembles(words, src)
    requires CleanRun(Image(words), PipeStep(Image(words), ResetPipe(), first), ins)
    ensures var k := PipeStep(Image(words), ResetPipe(), first);
            Abs(PipeRun(Image(words), k, ins)) == SourceRun(src, ResetArch(), Committed(Image(words), k, ins))
  {
    hide Proper, Assembles, PipeStep, CleanRun, Image, ResetArch, ResetPipe, Abs;
    var prog := Image(words);
    ImageIsOrdinary(words, src);
    ResetRunRefines(prog, first, ins);
    RunAgrees(words, src, ResetArch(), Committed(prog, PipeStep(prog, ResetPipe(), first), ins));
  }

  /** The same with nothing left to the run but hits and a free slot for every new
      thread: the words are checked one by one before the program is loaded. */
  lemma PipelineRunsScheduledSource(words: seq<string>, src: Source, first: Input, ins: seq<Input>)
    requires Proper(src) && Assembles(words, src) && Scheduled(Image(words)) && Hits(ins)
    requires NeverOverflows(Image(words), PipeStep(Image(words), ResetPipe(), first), ins)
    ensures var k := PipeStep(Image(words), ResetPipe(), first);
            Abs(PipeRun(Image(words), k, ins)) == SourceRun(src, ResetArch(), Committed(Image(words), k, ins))
  {
    hide Proper, Assembles, PipeStep, NeverOverflows, Scheduled, Image, ResetArch, ResetPipe, Abs;
    var prog := Image(words);
    ImageIsOrdinary(words, src);
    ScheduledRefines(prog, first, ins);
    RunAgrees(words, src, ResetArch(), Committed(prog, PipeStep(prog, ResetPipe(), first), ins));
  }

  // --------------------------------------------------------------- from the text

  /** The commands of a listing, when every line can be read. */
  function SourceOf(listing: seq<string>, labels: Labels): Source
    requires forall i | 0 <= i < |listing| :: ReadCmd(i, listing[i], labels).Some?
  {
    seq(|listing|, i requires 0 <= i < |listing| => ReadCmd(i, listing[i], labels).value)
  }

  /** The second round emits the words of those commands, and each is one word
      exactly when its registers exist. */
  lemma ListingAssembles(listing: seq<string>, labels: Labels, words: seq<string>)
    requires |words| == |listing|
    requires forall i | 0 <= i < |listing| ::
               words[i] == ProcessCmd(i, listing[i], labels) && ReadCmd(i, listing[i], labels).Some?
    ensures var src := SourceOf(listing, labels);
            Assembles(words, src) && forall i | 0 <= i < |src| :: Fits(src[i].0) <==> |words[i]| == 32
  {
    hide Encode, Registers, Ranges, Read;
    var src := SourceOf(listing, labels);
    forall i | 0 <= i < |src| ensures Fits(src[i].0) <==> |words[i]| == 32 {
      var text := listing[i];
      var name := Lower(text[..FirstGap(text)]);
      ReadRanges(Select(name).0, Tokens(Lower(text))[1..], labels, i);
      WidthExact(src[i].0, src[i].1);
    }
  }

  /** A file that assembles without an error, to one word a command, with no command
      that stops or wakes a thread, and that fits into memory. */
  ghost predicate Assembled(cmds: seq<string>, labels: Labels, words: seq<string>) {
    var listing := Listing(cmds);
    && LabelsOf(cmds, labels) && Emitted(cmds, labels, words) && START_PC + |words| <= MODULUS
    && (forall i | 0 <= i < |listing| ::
          ReadCmd(i, listing[i], labels).Some? && !ReadCmd(i, listing[i], labels).value.0.ThreadCmd?)
    && (forall i | 0 <= i < |words| :: |words[i]| == 32)
  }

  lemma AssembledIsProper(cmds: seq<string>, labels: Labels, words: seq<string>)
    requires Assembled(cmds, labels, words)
    ensures var src := SourceOf(Listing(cmds), labels); Proper(src) && Assembles(words, src)
  {
    hide Fits, ReadCmd, ProcessCmd, Listing, LabelsOf;
    ListingAssembles(Listing(cmds), labels, words);
  }

  /** From the lines of a file to the committed state: whatever `Assembler.Compile`
      has made of the lines, loaded and started from reset, the pipeline executes
      the commands as written, labels read as the numbers of the commands that
      follow them, over every clean run, and over every run with hits and free slots
      when the words are scheduled. */
  lemma FileRuns(lines: seq<string>, labels: Labels, words: seq<string>, first: Input, ins: seq<Input>)
    requires Assembled(Stripped(lines), labels, words)
    requires var prog := Image(words); var k := PipeStep(prog, ResetPipe(), first);
             CleanRun(prog, k, ins) || (Scheduled(prog) && Hits(ins) && NeverOverflows(prog, k, ins))
    ensures var prog := Image(words); var k := PipeStep(prog, ResetPipe(), first);
            var src := SourceOf(Listing(Stripped(lines)), labels);
            Proper(src) && Abs(PipeRun(prog, k, ins)) == SourceRun(src, ResetArch(), Committed(prog, k, ins))
  {
    hide PipeStep, CleanRun, NeverOverflows, Scheduled, Image, ResetArch, ResetPipe, Abs, Listing, ReadCmd, Proper;
    hide LabelsOf, Emitted, SourceRun, Committed, PipeRun, Assembles;
    var src := SourceOf(Listing(Stripped(lines)), labels);
    AssembledIsProper(Stripped(lines), labels, words);
    if CleanRun(Image(words), PipeStep(Image(words), ResetPipe(), first), ins) {
      PipelineRunsSource(words, src, first, ins);
    } else {
      PipelineRunsScheduledSource(words, src, first, ins);
    }
  }
}
