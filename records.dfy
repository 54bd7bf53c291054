/** The two shapes an article takes on its way from the feed to the database. */
module Records {
  /** A canonicalised feed entry, the list [title, summary, link, published]. */
  datatype Article = Article(title: string, summary: string, link: string, published: string)

  /** A classified article, the dictionary with keys title, summary, link, published, categories. */
  datatype Record = Record(title: string, summary: string, link: string, published: string, categories: seq<string>)
}
