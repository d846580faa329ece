/** The doctor rankings page: doctors by descending rating, with medal
    colours for the first three places. */
module DoctorRankings {
  import opened Types
  import Lists

  function Rating(d: Doctor): real {
    d.rating
  }

  /** `[...doctors].sort((a, b) => b.rating - a.rating)`: a sorted copy; the
      input sequence itself is a value and stays as it was. */
  function SortedDoctors(doctors: seq<Doctor>): (r: seq<Doctor>)
    ensures |r| == |doctors| && multiset(r) == multiset(doctors)
    ensures forall i, j :: 0 <= i < j < |r| ==> r[i].rating >= r[j].rating
  {
    Lists.SortDescending(doctors, Rating)
  }

  /** Doctors with the same rating keep their input order. */
  lemma EqualRatingsKeepOrder(doctors: seq<Doctor>, rating: real)
    ensures Lists.Filter(SortedDoctors(doctors), Lists.HasKey(Rating, rating))
         == Lists.Filter(doctors, Lists.HasKey(Rating, rating))
  {
    Lists.SortDescendingStable(doctors, Rating, rating);
  }

  const Gold := "text-yellow-400"
  const Silver := "text-gray-400"
  const Bronze := "text-yellow-600"
  const Muted := "text-muted-foreground"

  /** `getRankColor`. */
  function RankColor(rank: int): (c: string)
    ensures rank == 0 <==> c == Gold
    ensures rank == 1 <==> c == Silver
    ensures rank == 2 <==> c == Bronze
    ensures !(0 <= rank <= 2) <==> c == Muted
  {
    if rank == 0 then Gold
    else if rank == 1 then Silver
    else if rank == 2 then Bronze
    else Muted
  }
}
