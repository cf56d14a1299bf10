/** The two kinds of metric: counts add up, histograms hold summed amounts. */
module MetricKind {
  datatype Kind = Counter | Histogram
}
