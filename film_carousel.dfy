/**
 * The film carousel: one film at a time, with Left and Right moving round the list.
 * The offset lives in a static field, kept between one `Render` and the next; here it is
 * the field of the one `FilmCarousel` object. Key presses are a sequence of events.
 */
module FilmCarousel {
  import opened Wrappers
  import opened Films

  /** C# `a % n` for a positive `n`: the remainder has the sign of `a`. */
  function Remainder(a: int, n: int): (r: int)
    requires n > 0
    ensures a >= 0 ==> 0 <= r < n
    ensures a < 0 ==> -n < r <= 0
  {
    if a >= 0 then a % n else -((-a) % n)
  }

  /** Below `2 * n` the remainder is the value itself or the value less `n`. */
  lemma RemainderBelowTwice(a: int, n: int)
    requires 0 <= a < 2 * n
    ensures Remainder(a, n) == if a < n then a else a - n
  {
    if a >= n {
      RemainderOneTurn(a, n);
    }
  }

  /** Between `n` and `2 * n` the quotient is one. */
  lemma RemainderOneTurn(a: int, n: int)
    requires n <= a < 2 * n
    ensures a % n == a - n
  {
    assert a / n == 1;
  }

  /** Right arrow: `(offset + 1) % n`; from an offset that is not negative it lands on the list. */
  function MoveRight(offset: int, n: int): (r: int)
    requires n > 0
    ensures offset >= 0 ==> 0 <= r < n
  {
    Remainder(offset + 1, n)
  }

  /** Left arrow: `(offset - 1 + n) % n`; from an offset that is not negative it lands on the list. */
  function MoveLeft(offset: int, n: int): (r: int)
    requires n > 0
    ensures offset >= 0 ==> 0 <= r < n
  {
    Remainder(offset - 1 + n, n)
  }

  /**
   * On the list, Right goes to the next film and from the last one to the first; Left
   * goes to the previous film and from the first one to the last.
   */
  lemma MovesWrap(offset: int, n: int)
    requires 0 <= offset < n
    ensures MoveRight(offset, n) == if offset == n - 1 then 0 else offset + 1
    ensures MoveLeft(offset, n) == if offset == 0 then n - 1 else offset - 1
  {
    RemainderBelowTwice(offset + 1, n);
    RemainderBelowTwice(offset - 1 + n, n);
  }

  /** For an offset on the list, Left undoes Right and Right undoes Left. */
  lemma MovesInverse(offset: int, n: int)
    requires 0 <= offset < n
    ensures MoveLeft(MoveRight(offset, n), n) == offset
    ensures MoveRight(MoveLeft(offset, n), n) == offset
  {
    MovesWrap(offset, n);
    MovesWrap(MoveRight(offset, n), n);
    MovesWrap(MoveLeft(offset, n), n);
  }

  /** The offset after `k` presses of Right. */
  function RightPresses(offset: int, n: int, k: nat): int
    requires n > 0
  {
    if k == 0 then offset else MoveRight(RightPresses(offset, n, k - 1), n)
  }

  /** Up to `n` presses of Right from an offset on the list advance it by `k`, wrapping once. */
  lemma {:induction false} RightPressesAdvance(offset: int, n: int, k: nat)
    requires 0 <= offset < n && k <= n
    ensures RightPresses(offset, n, k) == if offset + k < n then offset + k else offset + k - n
  {
    if k > 0 {
      RightPressesAdvance(offset, n, k - 1);
      MovesWrap(RightPresses(offset, n, k - 1), n);
    }
  }

  /** `n` presses of Right bring the carousel back to where it started. */
  lemma FullTurn(offset: int, n: int)
    requires 0 <= offset < n
    ensures RightPresses(offset, n, n) == offset
  {
    RightPressesAdvance(offset, n, n);
  }

  datatype CarouselKey = LeftArrow | RightArrow | Escape | OtherKey

  datatype CarouselError = NullFilms | IndexOutOfRange

  /** The offset a browse ends at, the films it showed, and how it ended. */
  datatype Tour = Tour(offset: int, shown: seq<Film>, outcome: Outcome<CarouselError>)

  /**
   * The loop of `Render` on a non-empty list: show `films[offset]` (an offset off the list
   * fails the indexing), then handle the next key, until Esc or the end of the events.
   */
  function Browse(offset: int, films: seq<Film>, keys: seq<CarouselKey>): (t: Tour)
    requires films != []
    ensures |t.shown| <= |keys| + 1
    decreases |keys|
  {
    if !(0 <= offset < |films|) then Tour(offset, [], Fail(IndexOutOfRange))
    else if keys == [] || keys[0] == Escape then Tour(offset, [films[offset]], Pass)
    else
      var rest := Browse(NextOffset(offset, |films|, keys[0]), films, keys[1..]);
      Tour(rest.offset, [films[offset]] + rest.shown, rest.outcome)
  }

  /** The offset after one key: the arrows move, any other key stays. */
  function NextOffset(offset: int, n: int, key: CarouselKey): int
    requires n > 0
  {
    match key
    case LeftArrow => MoveLeft(offset, n)
    case RightArrow => MoveRight(offset, n)
    case _ => offset
  }

  /** A browse resumed after the films already shown. */
  function Resumed(seen: seq<Film>, rest: Tour): Tour {
    Tour(rest.offset, seen + rest.shown, rest.outcome)
  }

  /** One step of a browse resumed after `seen`: the film on screen joins `seen`. */
  lemma BrowseStep(seen: seq<Film>, offset: int, films: seq<Film>, keys: seq<CarouselKey>)
    requires 0 <= offset < |films| && keys != [] && keys[0] != Escape
    ensures Resumed(seen, Browse(offset, films, keys))
      == Resumed(seen + [films[offset]], Browse(NextOffset(offset, |films|, keys[0]), films, keys[1..]))
  {
    var rest := Browse(NextOffset(offset, |films|, keys[0]), films, keys[1..]);
    assert seen + ([films[offset]] + rest.shown) == (seen + [films[offset]]) + rest.shown;
  }

  /** From an offset on the list the browse never fails, and shows films of the list only. */
  lemma {:induction false} BrowseFromRange(offset: int, films: seq<Film>, keys: seq<CarouselKey>)
    requires 0 <= offset < |films|
    ensures var t := Browse(offset, films, keys);
      && t.outcome == Pass
      && 0 <= t.offset < |films|
      && |t.shown| >= 1 && t.shown[0] == films[offset]
      && forall k :: 0 <= k < |t.shown| ==> t.shown[k] in films
    decreases |keys|
  {
    if keys != [] && keys[0] != Escape {
      BrowseFromRange(NextOffset(offset, |films|, keys[0]), films, keys[1..]);
    }
  }

  /** `Render` as written: the browse starts at whatever offset the last one left. */
  function RenderedAsWritten(offset: int, films: Option<seq<Film>>, keys: seq<CarouselKey>): (t: Tour)
    ensures films.None? ==> t == Tour(offset, [], Fail(NullFilms))
    ensures films == Some([]) ==> t == Tour(offset, [], Pass)
  {
    match films
    case None => Tour(offset, [], Fail(NullFilms))
    case Some(fs) => if fs == [] then Tour(offset, [], Pass) else Browse(offset, fs, keys)
  }

  /**
   * A browse can end with the offset at the last film, and a later `Render` of a shorter
   * list then indexes past its end before any key is read.
   */
  lemma StaleOffsetCrashes(a: Film, b: Film, c: Film, keys: seq<CarouselKey>)
    ensures RenderedAsWritten(0, Some([a, b, c]), [RightArrow, RightArrow, Escape]).offset == 2
    ensures RenderedAsWritten(2, Some([a, b]), keys) == Tour(2, [], Fail(IndexOutOfRange))
  {
    var films := [a, b, c];
    var keys3 := [RightArrow, RightArrow, Escape];
    assert keys3[1..] == [RightArrow, Escape];
    assert keys3[1..][1..] == [Escape];
    MovesWrap(0, 3);
    MovesWrap(1, 3);
  }

  /** `Render` with an offset off the list moved back to the first film first. */
  function Rendered(offset: int, films: Option<seq<Film>>, keys: seq<CarouselKey>): (t: Tour)
    ensures films.None? ==> t == Tour(offset, [], Fail(NullFilms))
    ensures films == Some([]) ==> t == Tour(offset, [], Pass)
  {
    match films
    case None => Tour(offset, [], Fail(NullFilms))
    case Some(fs) =>
      if fs == [] then Tour(offset, [], Pass)
      else Browse(if 0 <= offset < |fs| then offset else 0, fs, keys)
  }

  /**
   * Whatever offset an earlier browse left, `Render` of a non-empty list shows the film
   * at that offset when it is on the list, never fails, and ends on the list.
   */
  lemma RenderNeverFails(offset: int, films: seq<Film>, keys: seq<CarouselKey>)
    requires films != []
    ensures var t := Rendered(offset, Some(films), keys);
      && t.outcome == Pass
      && 0 <= t.offset < |films|
      && |t.shown| >= 1 && t.shown[0] == films[if 0 <= offset < |films| then offset else 0]
      && forall k :: 0 <= k < |t.shown| ==> t.shown[k] in films
  {
    BrowseFromRange(if 0 <= offset < |films| then offset else 0, films, keys);
  }

  /** Holds the offset that the static field keeps between calls. */
  class FilmCarousel {
    var offset: int

    constructor()
      ensures offset == 0
    {
      offset := 0;
    }

    /** The key loop on a non-empty list, from the current offset. */
    method BrowseLoop(films: seq<Film>, keys: seq<CarouselKey>) returns (r: Outcome<CarouselError>, shown: seq<Film>)
      requires films != []
      modifies this
      ensures Tour(offset, shown, r) == Browse(old(offset), films, keys)
    {
      ghost var tour := Browse(offset, films, keys);
      shown := [];
      var i := 0;
      assert tour == Resumed(shown, Browse(offset, films, keys[i..])) by { assert keys[i..] == keys; }
      while true
        invariant 0 <= i <= |keys|
        invariant tour == Resumed(shown, Browse(offset, films, keys[i..]))
        decreases |keys| - i
      {
        if offset < 0 || offset >= |films| {
          return Fail(IndexOutOfRange), shown;
        }
        ghost var seen := shown;
        shown := shown + [films[offset]];
        if i == |keys| || keys[i] == Escape {
          return Pass, shown;
        }
        BrowseStep(seen, offset, films, keys[i..]);
        assert keys[i..][1..] == keys[i + 1..];
        match keys[i] {
          case LeftArrow =>
            offset := Remainder(offset - 1 + |films|, |films|);
          case RightArrow =>
            offset := Remainder(offset + 1, |films|);
          case _ =>
        }
        i := i + 1;
      }
    }

    /** `Render` as written: the loop starts from the offset the previous call left. */
    method RenderAsWritten(films: Option<seq<Film>>, keys: seq<CarouselKey>) returns (r: Outcome<CarouselError>, shown: seq<Film>)
      modifies this
      ensures Tour(offset, shown, r) == RenderedAsWritten(old(offset), films, keys)
    {
      if films.None? {
        return Fail(NullFilms), [];
      }
      if |films.value| == 0 {
        return Pass, [];
      }
      r, shown := BrowseLoop(films.value, keys);
    }

    /** `Render`, moving an offset left over from a longer list back to the first film. */
    method Render(films: Option<seq<Film>>, keys: seq<CarouselKey>) returns (r: Outcome<CarouselError>, shown: seq<Film>)
      modifies this
      ensures Tour(offset, shown, r) == Rendered(old(offset), films, keys)
    {
      if films.None? {
        return Fail(NullFilms), [];
      }
      if |films.value| == 0 {
        return Pass, [];
      }
      if offset < 0 || offset >= |films.value| {
        offset := 0;
      }
      r, shown := BrowseLoop(films.value, keys);
    }
  }
}
