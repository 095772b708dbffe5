/** The quick-create dialog: a title field whose submit builds an ongoing
    task (src/components/QuickTaskModal.tsx). */
module QuickTaskModal {
  import opened Wrappers
  import opened TaskModel
  import opened TaskContext

  /** The characters `String.prototype.trim` strips: the ECMAScript
      WhiteSpace set (tab, vertical tab, form feed, the byte order mark and
      the space separators) and the line terminators. */
  predicate IsWhitespace(c: char)
  {
    c == '\t' || c == '\U{000B}' || c == '\U{000C}' || c == ' ' || c == '\U{00A0}' ||
    c == '\U{FEFF}' || c == '\U{1680}' || ('\U{2000}' <= c <= '\U{200A}') ||
    c == '\U{202F}' || c == '\U{205F}' || c == '\U{3000}' ||
    c == '\n' || c == '\r' || c == '\U{2028}' || c == '\U{2029}'
  }

  predicate AllWhitespace(s: string)
  {
    forall i :: 0 <= i < |s| ==> IsWhitespace(s[i])
  }

  /** `s` without its leading whitespace: a suffix of `s` that is empty or
      starts with another character. */
  function TrimStart(s: string): (r: string)
    ensures |r| <= |s| && r == s[|s| - |r|..]
    ensures AllWhitespace(s[..|s| - |r|])
    ensures r == [] || !IsWhitespace(r[0])
  {
    if s != [] && IsWhitespace(s[0]) then TrimStart(s[1..]) else s
  }

  /** `s` without its trailing whitespace: a prefix of `s` that is empty or
      ends with another character. */
  function TrimEnd(s: string): (r: string)
    ensures |r| <= |s| && r == s[..|r|]
    ensures AllWhitespace(s[|r|..])
    ensures r == [] || !IsWhitespace(r[|r| - 1])
  {
    if s != [] && IsWhitespace(s[|s| - 1]) then TrimEnd(s[..|s| - 1]) else s
  }

  /** `title.trim()`: a slice of the title with whitespace only around it,
      and none at either end. */
  function Trim(s: string): (r: string)
    ensures IsTrimmedSlice(r, s)
    ensures r == [] || (!IsWhitespace(r[0]) && !IsWhitespace(r[|r| - 1]))
  {
    var t := TrimStart(s);
    var r := TrimEnd(t);
    TrimmedSliceWitness(s, t, r);
    r
  }

  /** `r` is `s` with only whitespace cut from either end. */
  ghost predicate IsTrimmedSlice(r: string, s: string)
  {
    exists i :: 0 <= i <= |s| - |r| && r == s[i..i + |r|] &&
                AllWhitespace(s[..i]) && AllWhitespace(s[i + |r|..])
  }

  lemma TrimmedSliceWitness(s: string, t: string, r: string)
    requires |t| <= |s| && t == s[|s| - |t|..] && AllWhitespace(s[..|s| - |t|])
    requires |r| <= |t| && r == t[..|r|] && AllWhitespace(t[|r|..])
    ensures IsTrimmedSlice(r, s)
  {
    var i := |s| - |t|;
    assert r == s[i..i + |r|];
    assert s[i + |r|..] == t[|r|..];
  }

  /** The trimmed title is empty exactly when the title is only whitespace
      (or empty). */
  lemma TrimEmptyIff(s: string)
    ensures Trim(s) == "" <==> AllWhitespace(s)
  {
    if Trim(s) == "" {
      var i :| 0 <= i <= |s| && AllWhitespace(s[..i]) && AllWhitespace(s[i..]);
      assert forall k :: 0 <= k < |s| ==> IsWhitespace(s[k]) by {
        forall k | 0 <= k < |s| ensures IsWhitespace(s[k]) {
          if k < i { assert s[..i][k] == s[k]; } else { assert s[i..][k - i] == s[k]; }
        }
      }
    }
  }

  /** Trimming twice gives the result of trimming once. */
  lemma TrimIdempotent(s: string)
    ensures Trim(Trim(s)) == Trim(s)
  {
    var r := Trim(s);
    if r != [] {
      assert TrimStart(r) == r;
      assert TrimEnd(r) == r;
    }
  }

  /** The task `handleSubmit` builds, or `None` when the trimmed title is
      empty and nothing is built. The id (from `uuidv4()`) and the single
      `now` timestamp are inputs. */
  function QuickTask(title: string, id: string, now: string): (r: Option<Task>)
    ensures r.None? <==> Trim(title) == ""
    ensures r.Some? ==>
              r.value.id == id &&
              r.value.title == Trim(title) && r.value.title != "" &&
              r.value.status == Code(Ongoing) &&
              r.value.description == Some("") &&
              r.value.dueDate == None && r.value.completedAt == None &&
              r.value.createdAt == now && r.value.updatedAt == now && r.value.startedAt == Some(now)
  {
    var trimmed := Trim(title);
    if trimmed == "" then None
    else Some(Task(id, trimmed, Some(""), Code(Ongoing), None, now, now, Some(now), None))
  }

  /** A quick task is ongoing, and its timestamps are in lifecycle order. */
  lemma QuickTaskOrdered(title: string, id: string, now: string)
    requires QuickTask(title, id, now).Some?
    ensures HasKnownStatus(QuickTask(title, id, now).value)
    ensures TimestampsOrdered(QuickTask(title, id, now).value)
  {
  }

  /** The submit button's `disabled` flag: it is set exactly when
      `handleSubmit` would build nothing, whatever the id and the clock. */
  function SubmitDisabled(title: string): (disabled: bool)
    ensures forall id, now :: disabled <==> QuickTask(title, id, now).None?
  {
    Trim(title) == ""
  }

  /** The dialog's state: the title typed so far, the store it adds to, and
      how many times it has asked its parent to close it (`onClose`). */
  class QuickTaskDialog {
    const provider: TaskProvider
    var title: string
    var closeRequests: nat

    constructor (provider: TaskProvider)
      ensures this.provider == provider && title == "" && closeRequests == 0
    {
      this.provider := provider;
      title := "";
      closeRequests := 0;
    }

    /** The input's `onChange`: the field holds exactly what was typed. */
    method SetTitle(value: string)
      modifies this
      ensures title == value && closeRequests == old(closeRequests)
    {
      title := value;
    }

    /** `handleSubmit`. A blank title changes nothing: no task, the title
        stays, the dialog stays open. Otherwise exactly one task is added,
        the title is reset and the parent is asked to close the dialog. */
    method HandleSubmit(id: string, now: string) returns (added: bool)
      modifies this, provider
      ensures added <==> !SubmitDisabled(old(title))
      ensures !added ==>
                provider.tasks == old(provider.tasks) && title == old(title) &&
                closeRequests == old(closeRequests)
      ensures added ==>
                var task := QuickTask(old(title), id, now).value;
                provider.tasks == Added(old(provider.tasks), task) && title == "" &&
                closeRequests == old(closeRequests) + 1
    {
      var task := QuickTask(title, id, now);
      if task.None? {
        return false;
      }
      provider.AddTask(task.value);
      title := "";
      closeRequests := closeRequests + 1;
      added := true;
    }
  }
}
