// The loop of main.c, one pass at a time: run the opcode at PC through CPU;
// a negative result ends the loop, otherwise LCD_update runs with the cycle
// count the opcode stored and CPU_check_interrupts follows. The tracing,
// the keyboard wait and the total_cycles / max_cycles pacing change no
// modelled state.

module MainLoop {
  import opened Bits
  import opened State
  import opened CpuSpec
  import opened CpuCoreSpec
  import opened CpuCoreProperties
  import opened GlSpec
  import LcdSpec

  /** One pass of the loop: the new state, the new video buffer, and whether the loop goes on. */
  function Step(s: Machine, v: Video): (r: (Machine, Video, bool))
    requires ExecDefined(s, s.mem[s.PC])
  {
    var (s1, result) := Exec(s, s.mem[s.PC]);
    if result < 0 then (s1, v, false)
    else
      var (s2, v2) := LcdSpec.Update(s1, v, s1.cycles);
      (CheckInterrupts(s2), v2, true)
  }

  /**
   * The loop stops exactly at an opcode without a case (or a 0xCB followed by
   * an extended opcode without one); the state is then that of the CPU call
   * alone, unchanged apart from the PC step of the prefix, and the video
   * buffer is untouched.
   */
  lemma StepStops(s: Machine, v: Video)
    requires ExecDefined(s, s.mem[s.PC])
    ensures var op := s.mem[s.PC];
            var r := Step(s, v);
            (!r.2 <==> (op != 0xCB && op in Unhandled) || (op == 0xCB && s.mem[s.PCPlus(1)] !in ExtendedHandled))
            && (!r.2 ==> r.1 == v)
            && (!r.2 && op != 0xCB ==> r.0 == s)
            && (!r.2 && op == 0xCB ==> r.0 == s.(PC := s.PCPlus(1)))
  {
    ExecResult(s, s.mem[s.PC]);
  }
}
