/** The hero title: one letter per character of "DRIVE THE FUTURE", each
    painted with one of the four hero images, chosen by the letter's
    position modulo the number of images. */
module Hero {
  import opened Catalog

  datatype Letter = Letter(ch: char, background: Image)

  /** The background of the letter at position `i`. The position is never
      negative, so the remainder agrees with the page script's `%`. */
  function LetterBackground(i: nat): (img: Image)
    ensures img in HeroImages
  {
    HeroImages[i % |HeroImages|]
  }

  /** The letters of the title, in order. */
  function HeroLetters(): (ls: seq<Letter>)
    ensures |ls| == |Title|
    ensures forall i :: 0 <= i < |ls| ==> ls[i].ch == Title[i] && ls[i].background in HeroImages
  {
    seq(|Title|, i requires 0 <= i < |Title| => Letter(Title[i], LetterBackground(i)))
  }

  /** Backgrounds repeat every four positions. */
  lemma BackgroundPeriod(i: nat)
    ensures LetterBackground(i + |HeroImages|) == LetterBackground(i)
  {
  }

  /** The title shows the four images in order, then repeats them: the
      background sequence has period four and no shorter one. */
  lemma HeroLettersCycle()
    ensures var ls := HeroLetters();
      && |ls| == 16
      && (forall i :: 0 <= i < 4 ==> ls[i].background == HeroImages[i])
      && (forall i :: 0 <= i < |ls| - 4 ==> ls[i + 4].background == ls[i].background)
      && (forall p :: 1 <= p < 4 ==> ls[p].background != ls[0].background)
  {
    var ls := HeroLetters();
    assert |Title| == 16;
    forall i | 0 <= i < 4
      ensures ls[i].background == HeroImages[i]
    {
      assert i % 4 == i;
    }
    forall i | 0 <= i < |ls| - 4
      ensures ls[i + 4].background == ls[i].background
    {
      BackgroundPeriod(i);
    }
  }
}
