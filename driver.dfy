/**
 * The demonstration script: one subject, a pro and a casual gamer attached,
 * news leaks twice, the pro gamer is detached, news leaks once more.  The
 * three random draws are passed in.
 */
module Driver {
  import opened Gamers
  import opened VideoGame

  /** The reactions of the two observer lists the script notifies. */
  lemma DemoReactions(pro: ProGamer, casual: CasualGamer, state: int)
    ensures Reactions([Casual(casual)], state) == if state < CasualThreshold then [CasualReaction] else []
    ensures Reactions([Pro(pro), Casual(casual)], state) == [ProfessionalReaction] + Reactions([Casual(casual)], state)
  {
    assert [Pro(pro), Casual(casual)][1..] == [Casual(casual)];
  }

  /** The reactions shown after each of the three leaks, for any three draws. */
  method RunDemo(first: int, second: int, third: int) returns (t1: seq<Reaction>, t2: seq<Reaction>, t3: seq<Reaction>)
    requires MinState <= first <= MaxState
    requires MinState <= second <= MaxState
    requires MinState <= third <= MaxState
    ensures t1 == [ProfessionalReaction] + (if first < CasualThreshold then [CasualReaction] else [])
    ensures t2 == [ProfessionalReaction] + (if second < CasualThreshold then [CasualReaction] else [])
    ensures t3 == if third < CasualThreshold then [CasualReaction] else []
  {
    var subject := new VideoGameSubject();
    var pro := new ProGamer();
    var casual := new CasualGamer();
    var _ := subject.Attach(Pro(pro));
    var _ := subject.Attach(Casual(casual));
    var both := [Pro(pro), Casual(casual)];
    assert subject.observers == both;

    DemoReactions(pro, casual, first);
    DemoReactions(pro, casual, second);
    DemoReactions(pro, casual, third);
    var run := subject.NewsLeakedWithDraw(first);
    t1 := run.trace;
    run := subject.NewsLeakedWithDraw(second);
    t2 := run.trace;

    var _ := subject.Detach(Pro(pro));
    assert subject.observers == [Casual(casual)] by {
      RemoveAllAppend([Pro(pro)], [Casual(casual)], Pro(pro));
      assert [Pro(pro), Casual(casual)] == [Pro(pro)] + [Casual(casual)];
    }
    run := subject.NewsLeakedWithDraw(third);
    t3 := run.trace;
  }

  /** The draws 1, 8 and 5 give the reactions of the recorded example run. */
  method ExampleRun() returns (t1: seq<Reaction>, t2: seq<Reaction>, t3: seq<Reaction>)
    ensures t1 == [ProfessionalReaction, CasualReaction]
    ensures t2 == [ProfessionalReaction]
    ensures t3 == []
  {
    t1, t2, t3 := RunDemo(1, 8, 5);
  }
}
