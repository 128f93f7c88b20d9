/**
 * The constants of the shipped arithmetic, pinned by known answers of its functions, every argument in its own place.
 */
module KnownAnswers {
  import opened Words
  import opened Synthetic
  import opened Executors
  import opened Production

  // ---------------------------------------------------------------------------
  // On machine words
  // ---------------------------------------------------------------------------

  /** The first three outputs of the generator from zero, as published with it. */
  lemma GeneratorFromZero()
    ensures Scramble(0x9E37_79B9_7F4A_7C15) == 0xE220_A839_7B1D_CDAF
    ensures Scramble(0x3C6E_F372_FE94_F82A) == 0x6E78_9E6A_A1B9_65F4
    ensures Scramble(0xDAA6_6D2C_7DDF_743F) == 0x06C4_5D18_8009_454F
    ensures Scramble(5) == 0xB6BF_613D_BEBB_45DC
  {
  }

  lemma MixAnswer()
    ensures Mix64((5 * 0x9E3779B97F4A7C15) ^ (2 * 0x94D049BB133111EB), 3, 7, 4 * 0x100000001B3) == 0x4DCE_FB99_36FB_47F6
  {
  }

  lemma RowAnswers()
    ensures StartBits(7, 5) == 0x1715_609A && FoldBits(3, 5, 7) == 0x91C3_5F62
    ensures RawBits(3, 5, 9, 3, 11) == 0x5F4D_A744
  {
  }

  // ---------------------------------------------------------------------------
  // On numbers
  // ---------------------------------------------------------------------------

  /** The generator advances by its odd constant and draws its word from where it then stands. */
  lemma GeneratorAdvances(x: u64)
    ensures SplitMix64(x) == Draw((x + 0x9E37_79B9_7F4A_7C15) % 0x1_0000_0000_0000_0000, WordAt(SplitMix64(x).next))
    ensures WordAt(5) == 0xBEBB_45DC && Low16(0x7B1D_CDAF) == 0xCDAF
  {
    GeneratorFromZero();
    NarrowAnswer();
    hide Scramble, Narrow;
  }

  lemma NarrowAnswer()
    ensures Narrow(0xB6BF_613D_BEBB_45DC) == 0xBEBB_45DC
  {
  }

  lemma SmallWord(n: nat)
    requires n < 256
    ensures Low64(n) == n as bv64
  {
    assert n % 0x1_0000_0000_0000_0000 == n;
  }

  lemma SmallWords()
    ensures Low64(5) == 5 && Low64(2) == 2 && Low64(3) == 3 && Low64(7) == 7 && Low64(4) == 4
  {
    hide Low64;
    SmallWord(5);
    SmallWord(2);
    SmallWord(3);
    SmallWord(7);
    SmallWord(4);
  }

  lemma SeedAnswer()
    ensures SeedOf(5, 2, 3, 7, 4) == 0x4DCE_FB99_36FB_47F6
  {
    hide Low64, Mix64;
    SmallWords();
    MixAnswer();
  }

  lemma StartAnswer()
    ensures StartRow(7, 5) == 0x1715_609A
  {
    RowAnswers();
    hide StartBits;
  }

  lemma FoldAnswer()
    ensures FoldWord(3, 5, 7) == 0x91C3_5F62
  {
    RowAnswers();
    hide FoldBits;
  }

  lemma RawAnswer()
    ensures RawToken(3, 5, 9, 2, 11) == 0x5F4D_A744
  {
    RowAnswers();
    hide RawBits;
  }

  /** The arithmetic that ships is made of these functions, and the target model starts from the shared seed. */
  lemma ShippedArithmetic()
    ensures SHIPPED.draw(0).next == 0x9E37_79B9_7F4A_7C15 && SHIPPED.low16(0x7B1D_CDAF) == 0xCDAF
    ensures SHIPPED.start(7, 5) == 0x1715_609A && SHIPPED.fold(3, 5, 7) == 0x91C3_5F62
    ensures SHIPPED.raw(3, 5, 9, 2, 11) == 0x5F4D_A744
    ensures SHIPPED.seed(5, 2, 3, 7, 4) == 0x4DCE_FB99_36FB_47F6
    ensures TARGET_START == 0x1_0000_0000 + 0x05A1_7B0C
  {
    GeneratorAdvances(0);
    StartAnswer();
    FoldAnswer();
    RawAnswer();
    SeedAnswer();
    hide SeedOf, StartRow, FoldWord, RawToken, WordAt;
  }

  /** Both executors seed the path of one base alike, each of its five numbers in its place. */
  lemma BaseAnswer(aligned: u32, p: ProposalInput, v: VerificationInput)
    requires p.baseState == v.baseState == StateRef(5, 2) && p.baseGeneration == v.baseGeneration == 3
    requires p.proposer.revision == v.proposer.revision == 7 && p.depth == |v.candidate| == 4
    ensures VerifierSource(SHIPPED, v) == Source(SHIPPED, TargetModel(SHIPPED), 0x4DCE_FB99_36FB_47F6)
    ensures Candidate(SHIPPED, aligned, p) == VerifierSource(SHIPPED, v).Draft(aligned, p.branchIndex, 4)
  {
    SeedAnswer();
    hide SeedOf, TargetModel, Source.Draft;
  }
}
