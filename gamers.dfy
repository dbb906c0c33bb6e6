/**
 * The two concrete observers of the video game subject and the Observer
 * capability they share.  Each observer is an object with identity (the
 * subject detaches by identity); its `update` is a stateless decision over
 * the state the notifying subject exposes.
 */
module Gamers {
  import opened Wrappers

  /** The reaction an observer shows; it stands for the line the observer prints. */
  datatype Reaction = ProfessionalReaction | CasualReaction

  /** Raised when a casual gamer compares a state that was never set (`nil < 3`). */
  datatype Error = NoMethodError

  /** What one call of `update` does: react, stay silent, or raise. */
  datatype Response = Reacted(reaction: Reaction) | Ignored | Raised(error: Error)

  /** Casual gamers react only to the three most important states, 0, 1 and 2. */
  const CasualThreshold: int := 3

  /** A gamer who reacts to every piece of news. */
  class ProGamer {

    constructor () {}

    /** Reacts whatever the subject's state is, even when it was never set. */
    function Update(state: Option<int>): (r: Response)
      ensures r.Reacted? && r.reaction == ProfessionalReaction
    {
      Reacted(ProfessionalReaction)
    }
  }

  /** A gamer who only reacts to high-priority news. */
  class CasualGamer {

    constructor () {}

    /**
     * Reacts exactly when the state is below the threshold; a state that was
     * never set cannot be compared and raises.
     */
    function Update(state: Option<int>): (r: Response)
      ensures state.None? <==> r.Raised?
      ensures r.Reacted? <==> state.Some? && state.value < CasualThreshold
      ensures r.Ignored? <==> state.Some? && CasualThreshold <= state.value
      ensures r.Reacted? ==> r.reaction == CasualReaction
    {
      match state
      case None => Raised(NoMethodError)
      case Some(s) => if s < CasualThreshold then Reacted(CasualReaction) else Ignored
    }
  }

  /**
   * A reference to an attached observer.  Two observers are equal exactly
   * when they are the same object.
   */
  datatype Observer = Pro(pro: ProGamer) | Casual(casual: CasualGamer) {

    /** The reaction this observer's kind shows when it reacts. */
    function Kind(): Reaction {
      if Pro? then ProfessionalReaction else CasualReaction
    }

    /** Dispatches `update` to the concrete observer. */
    function Update(state: Option<int>): (r: Response)
      ensures r.Raised? <==> Casual? && state.None?
      ensures r.Reacted? <==> Pro? || (state.Some? && state.value < CasualThreshold)
      ensures r.Reacted? ==> r.reaction == Kind()
    {
      match this
      case Pro(p) => p.Update(state)
      case Casual(c) => c.Update(state)
    }
  }

  /** The reactions a response adds to the output: one or none. */
  function Emitted(r: Response): seq<Reaction> {
    if r.Reacted? then [r.reaction] else []
  }
}
