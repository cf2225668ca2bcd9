// apps/auth-iam-service/src/permissions/rbac-utils.ts: the pattern of permission codes, read
// from left to right in `AuthModel`, is three or more segments joined by dots.
module PermissionCodes {
  import opened AuthModel

  /** [a-z][a-zA-Z0-9]* */
  predicate IsSegment(s: string) {
    s != "" && 'a' <= s[0] <= 'z' && forall i :: 0 <= i < |s| ==> IsAlphanumeric(s[i])
  }

  predicate AreSegments(segments: seq<string>) {
    forall i :: 0 <= i < |segments| ==> IsSegment(segments[i])
  }

  function Joined(segments: seq<string>): string {
    if segments == [] then "" else "." + segments[0] + Joined(segments[1..])
  }

  /** The rest of a code inside a segment: more of it, then further segments. */
  lemma {:induction false} SegmentsOf(s: string, dots: nat) returns (head: string, segments: seq<string>)
    requires CodeFrom(s, false, dots)
    ensures s == head + Joined(segments) && AreSegments(segments)
    ensures forall i :: 0 <= i < |head| ==> IsAlphanumeric(head[i])
    ensures dots + |segments| >= 2
    decreases |s|
  {
    head, segments := "", [];
    if s == "" {
    } else if s[0] == '.' {
      assert CodeFrom(s[1..], true, dots + 1);
      assert s[1..] != "" && CodeFrom(s[1..][1..], false, dots + 1);
      var first, rest := SegmentsOf(s[1..][1..], dots + 1);
      segments := [[s[1]] + first] + rest;
      assert segments[1..] == rest;
      assert s == "." + ([s[1]] + first) + Joined(rest);
    } else {
      var first, rest := SegmentsOf(s[1..], dots);
      head, segments := [s[0]] + first, rest;
      assert s == head + Joined(rest);
    }
  }

  lemma DotOpensSegment(s: string, dots: nat)
    requires |s| >= 2 && s[0] == '.' && 'a' <= s[1] <= 'z' && CodeFrom(s[2..], false, dots + 1)
    ensures CodeFrom(s, false, dots)
  {
    assert s[1..] != "" && s[1..][0] == s[1] && s[1..][1..] == s[2..];
  }

  lemma {:induction false} SegmentsAreRead(head: string, segments: seq<string>, dots: nat)
    requires forall i :: 0 <= i < |head| ==> IsAlphanumeric(head[i])
    requires AreSegments(segments) && dots + |segments| >= 2
    ensures CodeFrom(head + Joined(segments), false, dots)
    decreases |segments|, |head|
  {
    var s := head + Joined(segments);
    if head != "" {
      SegmentsAreRead(head[1..], segments, dots);
      assert s[1..] == head[1..] + Joined(segments) && s[0] == head[0];
    } else if segments != [] {
      hide CodeFrom;
      var first, rest := segments[0], segments[1..];
      assert IsSegment(first);
      SegmentsAreRead(first[1..], rest, dots + 1);
      assert s[2..] == first[1..] + Joined(rest) && s[1] == first[0];
      DotOpensSegment(s, dots);
    } else {
      assert s == "";
    }
  }

  lemma JoinedIsCode(s: string, segments: seq<string>)
    requires |segments| >= 3 && AreSegments(segments) && "." + s == Joined(segments)
    ensures IsPermissionCode(s)
  {
    var first, rest := segments[0], segments[1..];
    assert IsSegment(first);
    SegmentsAreRead(first[1..], rest, 0);
    assert s == ("." + s)[1..] == first + Joined(rest);
    assert s[1..] == first[1..] + Joined(rest);
  }

  /** A permission code is three or more segments joined by dots. */
  lemma PermissionCodeIff(s: string)
    ensures IsPermissionCode(s) <==>
      exists segments :: |segments| >= 3 && AreSegments(segments) && "." + s == Joined(segments)
  {
    if IsPermissionCode(s) {
      var head, rest := SegmentsOf(s[1..], 0);
      var segments := [[s[0]] + head] + rest;
      assert segments[1..] == rest;
      assert IsSegment([s[0]] + head);
      assert "." + s == Joined(segments);
    }
    if segments: seq<string> :| |segments| >= 3 && AreSegments(segments) && "." + s == Joined(segments) {
      JoinedIsCode(s, segments);
    }
  }
}
