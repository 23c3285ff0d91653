/**
 * The admin dashboard of app/admin/page.tsx: the name of an exported quiz
 * file, and the quiz list the page keeps after a delete.
 */
module Dashboard {
  import opened QuizData

  /** What `/[a-z0-9]/i` matches: an ASCII letter of either case or an ASCII digit. */
  predicate IsAsciiAlnum(c: char)
  {
    ('a' <= c <= 'z') || ('A' <= c <= 'Z') || ('0' <= c <= '9')
  }

  /** `replace(/[^a-z0-9]/gi, '_')`: every other character becomes an underscore. */
  function ReplaceNonAlnum(s: string): (r: string)
    ensures |r| == |s|
  {
    seq(|s|, k requires 0 <= k < |s| => if IsAsciiAlnum(s[k]) then s[k] else '_')
  }

  /** Lower case of one character; only ASCII capitals can reach it. */
  function LowerAscii(c: char): char
  {
    if 'A' <= c <= 'Z' then (c as int - 'A' as int + 'a' as int) as char else c
  }

  /** `toLowerCase()` on a string that holds only ASCII letters, digits and underscores. */
  function LowerCase(s: string): (r: string)
    ensures |r| == |s|
  {
    seq(|s|, k requires 0 <= k < |s| => LowerAscii(s[k]))
  }

  /** The characters a file stem is made of: a-z, 0-9 and the underscore. */
  predicate IsStemChar(c: char)
  {
    ('a' <= c <= 'z') || ('0' <= c <= '9') || c == '_'
  }

  /** The stem of the export file name, made from the quiz title. */
  function Slug(title: string): string
  {
    LowerCase(ReplaceNonAlnum(title))
  }

  /** The name of the downloaded export file. */
  function ExportFileName(title: string): (name: string)
    ensures |name| == |title| + 5 && name[|title|..] == ".json"
    ensures forall k :: 0 <= k < |title| ==>
      && IsStemChar(name[k])
      && (IsAsciiAlnum(title[k]) ==> name[k] == LowerAscii(title[k]))
      && (!IsAsciiAlnum(title[k]) ==> name[k] == '_')
  {
    SlugPerCharacter(title);
    Slug(title) + ".json"
  }

  /**
   * One stem character per title character: letters lowercased, digits kept,
   * everything else an underscore; so every stem character is a-z, 0-9 or `_`.
   */
  lemma SlugPerCharacter(title: string)
    ensures |Slug(title)| == |title|
    ensures forall k :: 0 <= k < |title| ==>
      && (IsAsciiAlnum(title[k]) ==> Slug(title)[k] == LowerAscii(title[k]))
      && (!IsAsciiAlnum(title[k]) ==> Slug(title)[k] == '_')
      && IsStemChar(Slug(title)[k])
  {
  }

  /** A stem is its own stem. */
  lemma SlugIdempotent(title: string)
    ensures Slug(Slug(title)) == Slug(title)
  {
    var stem := Slug(title);
    SlugPerCharacter(title);
    forall k | 0 <= k < |stem|
      ensures Slug(stem)[k] == stem[k]
    {
      assert IsStemChar(stem[k]);
    }
  }

  /** `quizzes.filter(q => q.id !== id)`. */
  function WithoutId(quizzes: seq<QuizSummary>, id: string): (r: seq<QuizSummary>)
    ensures |r| <= |quizzes|
  {
    if quizzes == [] then []
    else (if quizzes[0].id == id then [] else [quizzes[0]]) + WithoutId(quizzes[1..], id)
  }

  /** The filter keeps every entry with another id as many times as it was there, and no entry with the id. */
  lemma {:induction false} WithoutIdContents(quizzes: seq<QuizSummary>, id: string)
    ensures forall s :: multiset(WithoutId(quizzes, id))[s] == if s.id == id then 0 else multiset(quizzes)[s]
  {
    if quizzes != [] {
      WithoutIdContents(quizzes[1..], id);
      assert quizzes == [quizzes[0]] + quizzes[1..];
    }
  }

  /** The filter works piece by piece, so the kept entries stay in their relative order. */
  lemma {:induction false} WithoutIdAppend(a: seq<QuizSummary>, b: seq<QuizSummary>, id: string)
    ensures WithoutId(a + b, id) == WithoutId(a, id) + WithoutId(b, id)
  {
    if a == [] {
      assert a + b == b;
    } else {
      assert (a + b)[1..] == a[1..] + b;
      WithoutIdAppend(a[1..], b, id);
    }
  }

  /** The quiz list the dashboard shows. */
  class QuizList {
    var quizzes: seq<QuizSummary>

    constructor()
      ensures quizzes == []
    {
      quizzes := [];
    }

    /**
     * `deleteQuiz`: nothing happens unless the user confirms; the list drops
     * the quiz only when the server reports success. `confirmed` is the
     * answer of the confirmation dialog and `responseOk` whether the delete
     * request succeeded. `requested` says whether a request was sent.
     */
    method DeleteQuiz(id: string, confirmed: bool, responseOk: bool) returns (requested: bool)
      modifies this`quizzes
      ensures requested == confirmed
      ensures quizzes == if confirmed && responseOk then WithoutId(old(quizzes), id) else old(quizzes)
    {
      if !confirmed {
        return false;
      }
      requested := true;
      if responseOk {
        quizzes := WithoutId(quizzes, id);
      }
    }
  }
}
